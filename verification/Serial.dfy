/** Bytecode files (bytecode/bytecode_writer.cpp, bytecode/bytecode_reader.cpp): the reader undoes the
    writer, and which bodies it accepts is decided by the checksum of the bytes it reads completely. */
module Serial {
  import opened Lists
  import opened Checksum
  import M = Machine

  /** How an operand is stored: a register or an address, an int or a float, a bool, a string. */
  datatype Shape = Word | Wide | Flag | Text

  /** An operand; ints and floats are their 64 bits. */
  datatype Field = WordF(w: bv32) | WideF(v: bv64) | FlagF(b: bool) | TextF(s: seq<byte>)

  /** What an opcode has that is not written. */
  datatype Extra = Nothing | Break(state: M.BreakState) | Space(anonymous: bool)

  /** An opcode: its number and the arguments of its constructor. */
  datatype Op = Op(code: nat, fields: seq<Field>, extra: Extra)

  const BREAK_TO: nat := 22
  const BUILD_SPACE: nat := 122
  const OPCODES_AMOUNT: nat := 137

  /** The operands the writer writes, opcode by opcode. */
  function WriterLayout(op: nat): (shapes: Option<seq<Shape>>)
  {
    match op
    // END, POP_FRAME, PUSH_CALL_FRAME, POP_CALL_FRAME, POP_FINALLY, RUN_FINALLY, LOOP_BEGIN, LOOP_END
    case 0 | 27 | 28 | 29 | 114 | 116 | 135 | 136 => Some([])
    // STORE_NIL_CONST, RETURN, RETURN_CONST, PUSH_ARG, PUSH_CONST_ARG, PUSH_UNPACKED, FUN_BEGIN, IMPORT_ALL,
    // PUSH_PARENT, OUTPUT, RAISE, FINALLY_RETURN, BUILD_LIST
    case 20 | 30 | 31 | 32 | 33 | 35 | 37 | 43 | 44 | 49 | 109 | 115 | 119 => Some([Word])
    // JMP, BREAK_TO
    case 21 | 22 => Some([Word])
    // POP_CATCH
    case 112 => Some([Wide])
    // STORE, STORE_CONST, CALL, NOT, NEG, LIST_PUSH, LIST_PUSH_CONST, ITER
    case 5 | 7 | 25 | 106 | 107 | 117 | 118 | 134 => Some([Word, Word])
    // JMP_IF_TRUE, JMP_IF_FALSE, FINALLY
    case 23 | 24 | 113 => Some([Word, Word])
    // LOAD, LOAD_GLOBAL, LOAD_NONLOC, STORE_NAME, STORE_GLOBAL, STORE_NONLOC, STORE_STRING_CONST, CALL_FORMATTER,
    // PUSH_NAMED_ARG, IMPORT, BUILD_CLASS, DOCUMENT, BUILD_SPACE
    case 1 | 3 | 4 | 6 | 10 | 11 | 19 | 26 | 34 | 42 | 45 | 48 | 122 => Some([Word, Text])
    // STORE_INT_CONST, STORE_FLOAT_CONST, SET_VARARG
    case 16 | 17 | 41 => Some([Word, Wide])
    // STORE_BOOL_CONST
    case 18 => Some([Word, Flag])
    // ANNOTATE_MOD
    case 47 => Some([Text, Word])
    // STORE_SUBSC, STORE_CONST_SUBSC, STORE_SUBSC_CONST, STORE_C_SUBSC_C, ASSERT, BUILD_DICT, FOR
    case 12 | 13 | 14 | 15 | 108 | 120 | 132 => Some([Word, Word, Word])
    // LOAD_ATTR, STORE_ATTR, STORE_CONST_ATTR, BUILD_ENUM
    case 2 | 8 | 9 | 121 => Some([Word, Word, Text])
    // SET_DEFAULT, SET_DEFAULT_CONST, SET_TYPE
    case 38 | 39 | 40 => Some([Word, Wide, Word])
    // CREATE_FUN
    case 36 => Some([Word, Text, Text])
    // ANNOTATE
    case 46 => Some([Word, Text, Word])
    // CATCH
    case 110 => Some([Text, Word, Wide])
    // CATCH_TYPED
    case 111 => Some([Text, Word, Word, Wide])
    // CREATE_RANGE to CREATE_RANGE8, SWITCH, FOR_MULTI
    case 123 | 124 | 125 | 126 | 127 | 128 | 129 | 130 | 131 | 133 => Some([Word, Word, Word, Word])
    // CONCAT to SUBSCREST
    case _ => if 50 <= op <= 105 then Some([Word, Word, Word]) else None
  }

  /** The operands the reader reads, opcode by opcode; none for an unknown opcode. */
  function ReaderLayout(op: nat): (shapes: Option<seq<Shape>>)
  {
    if op < 16 then
      match op
      case 0 => Some([])
      case 2 | 8 | 9 => Some([Word, Word, Text])
      case 5 | 7 => Some([Word, Word])
      case 12 | 13 | 14 | 15 => Some([Word, Word, Word])
      case _ => Some([Word, Text])
    else if op < 27 then
      match op
      case 16 | 17 => Some([Word, Wide])
      case 18 => Some([Word, Flag])
      case 19 | 26 => Some([Word, Text])
      case 20 | 21 | 22 => Some([Word])
      case _ => Some([Word, Word])
    else if op < 50 then
      match op
      case 27 | 28 | 29 => Some([])
      case 30 | 31 | 32 | 33 | 35 | 37 | 43 | 44 | 49 => Some([Word])
      case 36 => Some([Word, Text, Text])
      case 38 | 39 | 40 => Some([Word, Wide, Word])
      case 41 => Some([Word, Wide])
      case 46 => Some([Word, Text, Word])
      case 47 => Some([Text, Word])
      case _ => Some([Word, Text])
    else if op < 106 then Some([Word, Word, Word])
    else if op < 123 then
      match op
      case 114 | 116 => Some([])
      case 109 | 115 | 119 => Some([Word])
      case 106 | 107 | 113 | 117 | 118 => Some([Word, Word])
      case 108 | 120 => Some([Word, Word, Word])
      case 110 => Some([Text, Word, Wide])
      case 111 => Some([Text, Word, Word, Wide])
      case 112 => Some([Wide])
      case 121 => Some([Word, Word, Text])
      case _ => Some([Word, Text])
    else if op < 137 then
      match op
      case 132 => Some([Word, Word, Word])
      case 134 => Some([Word, Word])
      case 135 | 136 => Some([])
      case _ => Some([Word, Word, Word, Word])
    else None
  }

  lemma {:induction false} LayoutsAgree(op: nat)
    ensures WriterLayout(op) == ReaderLayout(op)
    ensures WriterLayout(op).Some? <==> op < OPCODES_AMOUNT
  {}

  // ----- bytes -----

  /** A byte from its bits, highest first. */
  function Pack(b7: bool, b6: bool, b5: bool, b4: bool, b3: bool, b2: bool, b1: bool, b0: bool): byte {
    (if b7 then 0x80 else 0) | (if b6 then 0x40 else 0) | (if b5 then 0x20 else 0) | (if b4 then 0x10 else 0)
    | (if b3 then 8 else 0) | (if b2 then 4 else 0) | (if b1 then 2 else 0) | (if b0 then 1 else 0)
  }

  predicate Bit(b: byte, mask: byte) {
    b & mask != 0
  }

  function Digit(b: byte, mask: byte, weight: nat): nat {
    if Bit(b, mask) then weight else 0
  }

  /** What is left of a number after taking out a weight. */
  function Without(n: nat, weight: nat): nat {
    if n >= weight then n - weight else n
  }

  /** The byte of a number. */
  function ByteOf(n: nat): byte
    requires n < 256
  {
    var n6 := Without(n, 128);
    var n5 := Without(n6, 64);
    var n4 := Without(n5, 32);
    var n3 := Without(n4, 16);
    var n2 := Without(n3, 8);
    var n1 := Without(n2, 4);
    var n0 := Without(n1, 2);
    Pack(n >= 128, n6 >= 64, n5 >= 32, n4 >= 16, n3 >= 8, n2 >= 4, n1 >= 2, n0 >= 1)
  }

  /** The number of a byte. */
  function NatOf(b: byte): (n: nat)
    ensures n < 256
  {
    Digit(b, 0x80, 128) + Digit(b, 0x40, 64) + Digit(b, 0x20, 32) + Digit(b, 0x10, 16)
    + Digit(b, 8, 8) + Digit(b, 4, 4) + Digit(b, 2, 2) + Digit(b, 1, 1)
  }

  lemma {:induction false} PackBits(b7: bool, b6: bool, b5: bool, b4: bool, b3: bool, b2: bool, b1: bool, b0: bool)
    ensures var b := Pack(b7, b6, b5, b4, b3, b2, b1, b0);
            && Bit(b, 0x80) == b7 && Bit(b, 0x40) == b6 && Bit(b, 0x20) == b5 && Bit(b, 0x10) == b4
            && Bit(b, 8) == b3 && Bit(b, 4) == b2 && Bit(b, 2) == b1 && Bit(b, 1) == b0
  {}

  function Weigh(set7: bool, set6: bool, set5: bool, set4: bool, set3: bool, set2: bool, set1: bool, set0: bool): nat {
    (if set7 then 128 else 0) + (if set6 then 64 else 0) + (if set5 then 32 else 0) + (if set4 then 16 else 0)
    + (if set3 then 8 else 0) + (if set2 then 4 else 0) + (if set1 then 2 else 0) + (if set0 then 1 else 0)
  }

  lemma {:induction false} ByteBack(n: nat)
    requires n < 256
    ensures NatOf(ByteOf(n)) == n
  {
    hide Pack, Without, NatOf, Weigh;
    var n6 := Without(n, 128);
    var n5 := Without(n6, 64);
    var n4 := Without(n5, 32);
    var n3 := Without(n4, 16);
    var n2 := Without(n3, 8);
    var n1 := Without(n2, 4);
    var n0 := Without(n1, 2);
    WeighDigits(n, n6, n5, n4, n3, n2, n1, n0);
    PackWeighs(n >= 128, n6 >= 64, n5 >= 32, n4 >= 16, n3 >= 8, n2 >= 4, n1 >= 2, n0 >= 1);
  }

  lemma {:induction false} PackWeighs(b7: bool, b6: bool, b5: bool, b4: bool, b3: bool, b2: bool, b1: bool, b0: bool)
    ensures NatOf(Pack(b7, b6, b5, b4, b3, b2, b1, b0)) == Weigh(b7, b6, b5, b4, b3, b2, b1, b0)
  {
    hide Pack, Bit;
    PackBits(b7, b6, b5, b4, b3, b2, b1, b0);
  }

  lemma {:induction false} WeighDigits(n: nat, n6: nat, n5: nat, n4: nat, n3: nat, n2: nat, n1: nat, n0: nat)
    requires n < 256 && n6 == Without(n, 128) && n5 == Without(n6, 64) && n4 == Without(n5, 32)
    requires n3 == Without(n4, 16) && n2 == Without(n3, 8) && n1 == Without(n2, 4) && n0 == Without(n1, 2)
    ensures Weigh(n >= 128, n6 >= 64, n5 >= 32, n4 >= 16, n3 >= 8, n2 >= 4, n1 >= 2, n0 >= 1) == n
  {
    HighDigits(n, n6, n5, n4, n3);
    LowDigits(n3, n2, n1, n0);
    hide Without;
  }

  lemma {:induction false} HighDigits(n: nat, n6: nat, n5: nat, n4: nat, n3: nat)
    requires n < 256 && n6 == Without(n, 128) && n5 == Without(n6, 64) && n4 == Without(n5, 32) && n3 == Without(n4, 16)
    ensures n3 < 16
    ensures Weigh(n >= 128, n6 >= 64, n5 >= 32, n4 >= 16, false, false, false, false) + n3 == n
  {}

  lemma {:induction false} LowDigits(n3: nat, n2: nat, n1: nat, n0: nat)
    requires n3 < 16 && n2 == Without(n3, 8) && n1 == Without(n2, 4) && n0 == Without(n1, 2)
    ensures Weigh(false, false, false, false, n3 >= 8, n2 >= 4, n1 >= 2, n0 >= 1) == n3
  {}

  /** Little-endian words. */
  function WordBytes(w: bv32): (bytes: seq<byte>)
    ensures |bytes| == 4
  {
    [(w & 0xFF) as byte, ((w >> 8) & 0xFF) as byte, ((w >> 16) & 0xFF) as byte, (w >> 24) as byte]
  }

  function WordOf(b: seq<byte>): bv32
    requires |b| == 4
  {
    (b[0] as bv32) | ((b[1] as bv32) << 8) | ((b[2] as bv32) << 16) | ((b[3] as bv32) << 24)
  }

  lemma {:induction false} WordBack(w: bv32)
    ensures WordOf(WordBytes(w)) == w
  {}

  function WideBytes(v: bv64): (bytes: seq<byte>)
    ensures |bytes| == 8
  {
    WordBytes((v & 0xFFFF_FFFF) as bv32) + WordBytes((v >> 32) as bv32)
  }

  function WideOf(b: seq<byte>): bv64
    requires |b| == 8
  {
    (WordOf(b[..4]) as bv64) | ((WordOf(b[4..]) as bv64) << 32)
  }

  lemma {:induction false} WideBack(v: bv64)
    ensures WideOf(WideBytes(v)) == v
  {
    hide WordBytes, WordOf;
    var lo, hi := (v & 0xFFFF_FFFF) as bv32, (v >> 32) as bv32;
    WordBack(lo);
    WordBack(hi);
    assert WideBytes(v)[..4] == WordBytes(lo) && WideBytes(v)[4..] == WordBytes(hi);
    HalvesBack(v);
  }

  lemma {:induction false} HalvesBack(v: bv64)
    ensures (((v & 0xFFFF_FFFF) as bv32) as bv64) | ((((v >> 32) as bv32) as bv64) << 32) == v
  {}

  /** The length prefix keeps the length modulo two to the 32. */
  function LengthBytes(n: nat): (bytes: seq<byte>)
    ensures |bytes| == 4
  {
    var n1 := n / 256;
    var n2 := n1 / 256;
    var n3 := n2 / 256;
    [ByteOf(n % 256), ByteOf(n1 % 256), ByteOf(n2 % 256), ByteOf(n3 % 256)]
  }

  function LengthOf(b: seq<byte>): nat
    requires |b| == 4
  {
    NatOf(b[0]) + 256 * NatOf(b[1]) + 0x1_0000 * NatOf(b[2]) + 0x100_0000 * NatOf(b[3])
  }

  lemma {:induction false} LengthBack(n: nat)
    ensures LengthOf(LengthBytes(n)) == n % 0x1_0000_0000
  {
    hide ByteOf, NatOf;
    var n1 := n / 256;
    var n2 := n1 / 256;
    var n3 := n2 / 256;
    ByteBack(n % 256);
    ByteBack(n1 % 256);
    ByteBack(n2 % 256);
    ByteBack(n3 % 256);
    FourDigits(n, n % 256, n1 % 256, n2 % 256, n3 % 256, n3 / 256);
  }

  lemma {:induction false} FourDigits(n: nat, d0: nat, d1: nat, d2: nat, d3: nat, q: nat)
    requires d0 < 256 && d1 < 256 && d2 < 256 && d3 < 256
    requires n == d0 + 256 * (d1 + 256 * (d2 + 256 * (d3 + 256 * q)))
    ensures n % 0x1_0000_0000 == d0 + 256 * d1 + 0x1_0000 * d2 + 0x100_0000 * d3
  {}

  // ----- the string buffer -----

  const BUFFER_SIZE: nat := 256

  /** The longest string the reader can take. */
  const MAX_STRING: nat := 0xFFFF_FFC0

  /** The grown buffer: the next multiple of 64, computed in 32 bits. */
  function Grown(len: nat): nat
    requires 0 < len
  {
    ((len - 1) / 64 * 64 + 64) % 0x1_0000_0000
  }

  /** Growing helps exactly up to the longest string. */
  lemma {:induction false} GrownFits(len: nat)
    requires 0 < len < 0x1_0000_0000
    ensures len <= Grown(len) <==> len <= MAX_STRING
    ensures Grown(len) <= MAX_STRING
  {}

  // ----- the format -----

  function ShapeOf(f: Field): Shape {
    match f
    case WordF(_) => Word
    case WideF(_) => Wide
    case FlagF(_) => Flag
    case TextF(_) => Text
  }

  function Shapes(fs: seq<Field>): seq<Shape> {
    if fs == [] then [] else [ShapeOf(fs[0])] + Shapes(fs[1..])
  }

  function EncodeField(f: Field): seq<byte> {
    match f
    case WordF(w) => WordBytes(w)
    case WideF(v) => WideBytes(v)
    case FlagF(b) => [if b then 1 else 0]
    case TextF(s) => LengthBytes(|s|) + s
  }

  function EncodeFields(fs: seq<Field>): seq<byte> {
    if fs == [] then [] else EncodeField(fs[0]) + EncodeFields(fs[1..])
  }

  function EncodeOp(o: Op): seq<byte>
    requires o.code < 256
  {
    [ByteOf(o.code)] + EncodeFields(o.fields)
  }

  function Encode(code: seq<Op>): seq<byte>
    requires forall i :: 0 <= i < |code| ==> code[i].code < 256
  {
    if code == [] then [] else EncodeOp(code[0]) + Encode(code[1..])
  }

  /** A byte of a number is that number, and its number is that of the byte. */
  lemma {:induction false} ByteValue(n: nat)
    requires n < 256
    ensures ByteOf(n) as nat == n
  {
  }

  /** The bytes of words, wide operands and lengths, from the least significant one up. */
  lemma {:induction false} BytesInOrder()
    ensures WordBytes(0x0102_0304) == [4, 3, 2, 1]
    ensures WideBytes(0x0506_0708_090A_0B0C) == [0xC, 0xB, 0xA, 9, 8, 7, 6, 5]
    ensures LengthBytes(0x0102_0304) == [4, 3, 2, 1] && LengthBytes(2) == [2, 0, 0, 0]
  {
    hide ByteOf;
    ByteIs(0, 0);
    ByteIs(4, 4);
    ByteIs(3, 3);
    ByteIs(2, 2);
    ByteIs(1, 1);
    assert WordBytes(0x090A_0B0C) == [0xC, 0xB, 0xA, 9] && WordBytes(0x0506_0708) == [8, 7, 6, 5];
  }

  lemma {:induction false} ByteIs(n: nat, b: byte)
    requires n < 256 && b as nat == n
    ensures ByteOf(n) == b
  {
    hide ByteOf;
    ByteValue(n);
  }

  /** An opcode with operands of three kinds: its number, then the operands in order; a true flag is 1. */
  lemma {:induction false} EncodedExample()
    ensures EncodeOp(Op(18, [WordF(0x0102_0304), FlagF(true), TextF([0x61, 0x62])], Nothing))
         == [18] + [4, 3, 2, 1] + [1] + [2, 0, 0, 0, 0x61, 0x62]
  {
    hide WordBytes, LengthBytes, ByteOf;
    BytesInOrder();
    ByteIs(18, 18);
    var w, f, t := WordF(0x0102_0304), FlagF(true), TextF([0x61, 0x62]);
    assert [w, f, t][1..] == [f, t] && [f, t][1..] == [t] && [t][1..] == [];
    FirstField([w, f, t]);
    FirstField([f, t]);
    FirstField([t]);
    NoFields([]);
  }

  /** An opcode as the generator can build it: the operands of its kind, strings not too long. */
  ghost predicate Formed(o: Op) {
    && WriterLayout(o.code) == Some(Shapes(o.fields))
    && (o.code == BREAK_TO <==> o.extra.Break?)
    && (o.code == BUILD_SPACE <==> o.extra.Space?)
    && forall i :: 0 <= i < |o.fields| ==> Sized(o.fields[i])
  }

  predicate Sized(f: Field) {
    f.TextF? ==> |f.s| <= MAX_STRING
  }

  ghost predicate FormedCode(code: seq<Op>) {
    forall i :: 0 <= i < |code| ==> Formed(code[i])
  }

  // ----- reading -----

  datatype ReadError = Truncated | BufferOverrun | UnknownOpcode | ChecksumMismatch

  function TakeField(k: Shape, bytes: seq<byte>): (r: Result<(Field, seq<byte>), ReadError>)
    ensures r.Ok? ==> |r.value.1| <= |bytes|
  {
    match k
    case Word => if |bytes| < 4 then Err(Truncated) else Ok((WordF(WordOf(bytes[..4])), bytes[4..]))
    case Wide => if |bytes| < 8 then Err(Truncated) else Ok((WideF(WideOf(bytes[..8])), bytes[8..]))
    case Flag => if |bytes| < 1 then Err(Truncated) else Ok((FlagF(bytes[0] != 0), bytes[1..]))
    case Text =>
      if |bytes| < 4 then Err(Truncated)
      else
        var len := LengthOf(bytes[..4]);
        if len > MAX_STRING then Err(BufferOverrun)
        else if |bytes| - 4 < len then Err(Truncated)
        else Ok((TextF(bytes[4..4 + len]), bytes[4 + len..]))
  }

  function TakeFields(ks: seq<Shape>, bytes: seq<byte>): (r: Result<(seq<Field>, seq<byte>), ReadError>)
    ensures r.Ok? ==> |r.value.1| <= |bytes|
  {
    if ks == [] then Ok(([], bytes))
    else match TakeField(ks[0], bytes)
      case Err(e) => Err(e)
      case Ok((f, rest)) =>
        match TakeFields(ks[1..], rest)
        case Err(e) => Err(e)
        case Ok((fs, rest')) => Ok(([f] + fs, rest'))
  }

  /** A name the reader takes for that of an anonymous space. */
  predicate StartsWithDigit(s: seq<byte>) {
    s != [] && 0x30 <= s[0] <= 0x39
  }

  /** What the reader makes of the parts that are not written. */
  function ExtraOf(code: nat, fields: seq<Field>): Extra {
    if code == BREAK_TO then Break(M.Resolved)
    else if code == BUILD_SPACE then Space(|fields| == 2 && fields[1].TextF? && StartsWithDigit(fields[1].s))
    else Nothing
  }

  function ReadBack(o: Op): Op {
    o.(extra := ExtraOf(o.code, o.fields))
  }

  function ReadBackAll(code: seq<Op>): seq<Op> {
    if code == [] then [] else [ReadBack(code[0])] + ReadBackAll(code[1..])
  }

  const DECIMAL_DIGITS: set<byte> := {0x30, 0x31, 0x32, 0x33, 0x34, 0x35, 0x36, 0x37, 0x38, 0x39}

  /** Exactly the opcodes that come back unchanged. */
  predicate Faithful(o: Op) {
    && (o.extra.Break? ==> o.extra.state == M.Resolved)
    && (o.extra.Space? ==> (o.extra.anonymous <==>
         |o.fields| == 2 && o.fields[1].TextF? && o.fields[1].s != [] && o.fields[1].s[0] in DECIMAL_DIGITS))
  }

  lemma {:induction false} ReadBackExact(o: Op)
    requires Formed(o)
    ensures ReadBack(o) == o <==> Faithful(o)
  {
    hide WriterLayout, Shapes;
  }

  function TakeOp(bytes: seq<byte>): (r: Result<(Op, seq<byte>), ReadError>)
    requires bytes != []
    ensures r.Ok? ==> |r.value.1| < |bytes|
  {
    var code := NatOf(bytes[0]);
    match ReaderLayout(code)
    case None => Err(UnknownOpcode)
    case Some(ks) =>
      match TakeFields(ks, bytes[1..])
      case Err(e) => Err(e)
      case Ok((fs, rest)) => Ok((Op(code, fs, ExtraOf(code, fs)), rest))
  }

  function Decode(bytes: seq<byte>): Result<seq<Op>, ReadError>
    decreases |bytes|
  {
    if bytes == [] then Ok([])
    else match TakeOp(bytes)
      case Err(e) => Err(e)
      case Ok((o, rest)) =>
        match Decode(rest)
        case Err(e) => Err(e)
        case Ok(os) => Ok([o] + os)
  }

  // ----- a body that ends inside an opcode -----

  /** The rest of the body from the first opcode that cannot be read on. */
  function Broken(bytes: seq<byte>): (b: seq<byte>)
    ensures |b| <= |bytes|
    decreases |bytes|
  {
    if bytes == [] then [] else if TakeOp(bytes).Err? then bytes else Broken(TakeOp(bytes).value.1)
  }

  /** The opcodes before it. */
  function Whole(bytes: seq<byte>): seq<Op>
    decreases |bytes|
  {
    if bytes == [] || TakeOp(bytes).Err? then [] else [TakeOp(bytes).value.0] + Whole(TakeOp(bytes).value.1)
  }

  /** How much of an operand that is cut off is read completely: the length of a string, or nothing. */
  function CoveredField(k: Shape, bytes: seq<byte>): nat {
    if k == Text && |bytes| >= 4 then 4 else 0
  }

  function CoveredFields(ks: seq<Shape>, bytes: seq<byte>): (n: nat)
    ensures n <= |bytes|
  {
    if ks == [] then 0
    else if TakeField(ks[0], bytes).Err? then CoveredField(ks[0], bytes)
    else
      var rest := TakeField(ks[0], bytes).value.1;
      |bytes| - |rest| + CoveredFields(ks[1..], rest)
  }

  /** How much of the body goes into the checksum: all but what is read of an operand that is cut off. */
  function Covered(bytes: seq<byte>): (n: nat)
    ensures n <= |bytes|
  {
    var b := Broken(bytes);
    if b == [] then |bytes|
    else |bytes| - |b| + 1 + match ReaderLayout(NatOf(b[0])) case None => 0 case Some(ks) => CoveredFields(ks, b[1..])
  }

  // ----- the reader undoes the writer -----

  /** A written operand is read back exactly when it is not too long a string. */
  lemma {:induction false} TakeFieldBack(f: Field, rest: seq<byte>)
    ensures TakeField(ShapeOf(f), EncodeField(f) + rest) == Ok((f, rest)) <==> Sized(f)
  {
    hide WordBytes, WordOf, WideBytes, WideOf, LengthBytes, LengthOf;
    var bytes := EncodeField(f) + rest;
    match f {
      case WordF(w) =>
        WordBack(w);
        assert bytes[..4] == WordBytes(w) && bytes[4..] == rest;
      case WideF(v) =>
        WideBack(v);
        assert bytes[..8] == WideBytes(v) && bytes[8..] == rest;
      case FlagF(b) =>
        assert bytes[1..] == rest;
      case TextF(s) =>
        LengthBack(|s|);
        assert bytes[..4] == LengthBytes(|s|) && bytes[4..4 + |s|] == s && bytes[4 + |s|..] == rest;
        if !Sized(f) && TakeField(Text, bytes).Ok? {
          assert |TakeField(Text, bytes).value.0.s| < |s|;
        }
    }
  }

  lemma {:induction false} TakeFieldsBack(fs: seq<Field>, rest: seq<byte>)
    requires forall i :: 0 <= i < |fs| ==> Sized(fs[i])
    ensures TakeFields(Shapes(fs), EncodeFields(fs) + rest) == Ok((fs, rest))
    decreases |fs|
  {
    hide TakeField, TakeFields, EncodeField, EncodeFields, ShapeOf, Shapes, Sized;
    var bytes := EncodeFields(fs) + rest;
    FieldsApart(fs, rest);
    if fs == [] {
      NoneTaken(bytes);
    } else {
      var more := EncodeFields(fs[1..]) + rest;
      TakeFieldBack(fs[0], more);
      TakeFieldsBack(fs[1..], rest);
      FirstTaken(Shapes(fs), bytes);
      assert [fs[0]] + fs[1..] == fs;
    }
  }

  lemma {:induction false} FieldsApart(fs: seq<Field>, rest: seq<byte>)
    ensures fs == [] ==> Shapes(fs) == [] && EncodeFields(fs) + rest == rest
    ensures fs != [] ==>
              && Shapes(fs) != [] && Shapes(fs)[0] == ShapeOf(fs[0]) && Shapes(fs)[1..] == Shapes(fs[1..])
              && EncodeFields(fs) + rest == EncodeField(fs[0]) + (EncodeFields(fs[1..]) + rest)
  {
    hide EncodeField, ShapeOf;
    if fs != [] {
      Regroup(EncodeField(fs[0]), EncodeFields(fs[1..]), rest);
    }
  }

  lemma {:induction false} NoneTaken(bytes: seq<byte>)
    ensures TakeFields([], bytes) == Ok(([], bytes))
  {}

  lemma {:induction false} TakeOpBack(o: Op, rest: seq<byte>)
    requires Formed(o)
    ensures o.code < 256 && TakeOp(EncodeOp(o) + rest) == Ok((ReadBack(o), rest))
  {
    LayoutsAgree(o.code);
    hide WriterLayout, ReaderLayout, TakeFields, EncodeFields, Shapes, ByteOf, NatOf, Sized;
    ByteBack(o.code);
    TakeFieldsBack(o.fields, rest);
    var bytes := EncodeOp(o) + rest;
    assert bytes[0] == ByteOf(o.code);
    assert bytes[1..] == EncodeFields(o.fields) + rest;
  }

  lemma {:induction false} FormedCodes(code: seq<Op>)
    requires FormedCode(code)
    ensures forall i :: 0 <= i < |code| ==> code[i].code < 256
  {
    hide WriterLayout;
    forall i | 0 <= i < |code| ensures code[i].code < 256 {
      assert Formed(code[i]);
      LayoutsAgree(code[i].code);
    }
  }

  /** Reading a written body gives the same opcodes with the same operands; the unwritten parts are
      those the reader fills in. */
  lemma {:induction false} DecodeEncode(code: seq<Op>)
    requires FormedCode(code)
    ensures (forall i :: 0 <= i < |code| ==> code[i].code < 256) && Decode(Encode(code)) == Ok(ReadBackAll(code))
    decreases |code|
  {
    FormedCodes(code);
    hide Formed, EncodeOp, TakeOp, ReadBack;
    if code != [] {
      TakeOpBack(code[0], Encode(code[1..]));
      assert EncodeOp(code[0]) != [] by { NonEmpty(code[0]); }
      DecodeEncode(code[1..]);
    }
  }

  lemma {:induction false} NonEmpty(o: Op)
    requires o.code < 256
    ensures EncodeOp(o) != []
  {}

  /** Same opcodes and operands, what `equals` compares. */
  ghost predicate SameCode(a: seq<Op>, b: seq<Op>) {
    |a| == |b| && forall i :: 0 <= i < |a| ==> a[i].code == b[i].code && a[i].fields == b[i].fields
  }

  lemma {:induction false} ReadBackSame(code: seq<Op>)
    ensures SameCode(ReadBackAll(code), code)
    decreases |code|
  {
    hide ExtraOf;
    if code != [] {
      ReadBackSame(code[1..]);
    }
  }

  /** Exactly the faithful programs come back unchanged. */
  lemma {:induction false} RoundTrip(code: seq<Op>)
    requires FormedCode(code)
    ensures (forall i :: 0 <= i < |code| ==> code[i].code < 256)
    ensures Decode(Encode(code)).Ok? && SameCode(Decode(Encode(code)).value, code)
    ensures Decode(Encode(code)) == Ok(code) <==> forall i :: 0 <= i < |code| ==> Faithful(code[i])
  {
    hide Encode, Decode, Faithful, ReadBack;
    DecodeEncode(code);
    ReadBackSame(code);
    ReadBackFaithful(code);
  }

  lemma {:induction false} ReadBackFaithful(code: seq<Op>)
    requires FormedCode(code)
    ensures ReadBackAll(code) == code <==> forall i :: 0 <= i < |code| ==> Faithful(code[i])
    decreases |code|
  {
    hide Faithful, Formed, ReadBack;
    if code != [] {
      var rest := code[1..];
      ReadBackExact(code[0]);
      ReadBackFaithful(rest);
      assert code == [code[0]] + rest;
      assert ReadBackAll(code)[0] == ReadBack(code[0]) && ReadBackAll(code)[1..] == ReadBackAll(rest);
      assert forall i :: 0 <= i < |rest| ==> rest[i] == code[i + 1];
      assert forall i :: 1 <= i < |code| ==> code[i] == rest[i - 1];
    }
  }

  /** No two programs that differ in an opcode or an operand have the same body. */
  lemma {:induction false} UniquelyDecodable(a: seq<Op>, b: seq<Op>)
    requires FormedCode(a) && FormedCode(b)
    ensures (forall i :: 0 <= i < |a| ==> a[i].code < 256) && (forall i :: 0 <= i < |b| ==> b[i].code < 256)
    ensures Encode(a) == Encode(b) <==> SameCode(a, b)
  {
    hide Encode, Decode, Faithful, Formed;
    RoundTrip(a);
    RoundTrip(b);
    if SameCode(a, b) {
      SameBody(a, b);
    }
  }

  lemma {:induction false} SameBody(a: seq<Op>, b: seq<Op>)
    requires SameCode(a, b) && forall i :: 0 <= i < |a| ==> a[i].code < 256
    ensures Encode(a) == Encode(b)
    decreases |a|
  {
    hide EncodeFields;
    if a != [] {
      SameBody(a[1..], b[1..]);
    }
  }

  // ----- the writer undoes the reader -----

  lemma {:induction false} WordForth(b: seq<byte>)
    requires |b| == 4
    ensures WordBytes(WordOf(b)) == b
  {
    var w := WordBytes(WordOf(b));
    WordForthBytes(b[0], b[1], b[2], b[3]);
    assert w[0] == b[0] && w[1] == b[1] && w[2] == b[2] && w[3] == b[3];
  }

  lemma {:induction false} WordForthBytes(b0: byte, b1: byte, b2: byte, b3: byte)
    ensures var w := (b0 as bv32) | ((b1 as bv32) << 8) | ((b2 as bv32) << 16) | ((b3 as bv32) << 24);
            && (w & 0xFF) as byte == b0 && ((w >> 8) & 0xFF) as byte == b1
            && ((w >> 16) & 0xFF) as byte == b2 && (w >> 24) as byte == b3
  {}

  lemma {:induction false} WideForth(b: seq<byte>)
    requires |b| == 8
    ensures WideBytes(WideOf(b)) == b
  {
    var lo, hi := WordOf(b[..4]), WordOf(b[4..]);
    hide WordBytes, WordOf;
    HalvesForth(lo, hi);
    WordForth(b[..4]);
    WordForth(b[4..]);
    assert b[..4] + b[4..] == b;
  }

  lemma {:induction false} HalvesForth(lo: bv32, hi: bv32)
    ensures var v := (lo as bv64) | ((hi as bv64) << 32);
            (v & 0xFFFF_FFFF) as bv32 == lo && (v >> 32) as bv32 == hi
  {}

  /** A byte is packed from its own bits. */
  lemma {:induction false} PackOwnBits(b: byte)
    ensures Pack(Bit(b, 0x80), Bit(b, 0x40), Bit(b, 0x20), Bit(b, 0x10), Bit(b, 8), Bit(b, 4), Bit(b, 2), Bit(b, 1)) == b
  {}

  /** The bit of the highest weight, and what is left. */
  lemma {:induction false} TopBit(n: nat, weight: nat, b: bool, rest: nat)
    requires n == (if b then weight else 0) + rest && rest < weight
    ensures (n >= weight) == b && Without(n, weight) == rest
  {}

  lemma {:induction false} WeighInjective(n: nat, b7: bool, b6: bool, b5: bool, b4: bool, b3: bool, b2: bool, b1: bool, b0: bool)
    requires n == Weigh(b7, b6, b5, b4, b3, b2, b1, b0)
    ensures n < 256 && ByteOf(n) == Pack(b7, b6, b5, b4, b3, b2, b1, b0)
  {
    hide Pack, Without;
    var n0 := if b0 then 1 else 0;
    var n1 := (if b1 then 2 else 0) + n0;
    var n2 := (if b2 then 4 else 0) + n1;
    var n3 := (if b3 then 8 else 0) + n2;
    var n4 := (if b4 then 16 else 0) + n3;
    var n5 := (if b5 then 32 else 0) + n4;
    var n6 := (if b6 then 64 else 0) + n5;
    TopBit(n, 128, b7, n6);
    TopBit(n6, 64, b6, n5);
    TopBit(n5, 32, b5, n4);
    TopBit(n4, 16, b4, n3);
    TopBit(n3, 8, b3, n2);
    TopBit(n2, 4, b2, n1);
    TopBit(n1, 2, b1, n0);
  }

  lemma {:induction false} ByteForth(b: byte)
    ensures ByteOf(NatOf(b)) == b
  {
    hide Pack, Bit, ByteOf;
    PackOwnBits(b);
    WeighInjective(NatOf(b), Bit(b, 0x80), Bit(b, 0x40), Bit(b, 0x20), Bit(b, 0x10), Bit(b, 8), Bit(b, 4), Bit(b, 2), Bit(b, 1));
  }

  lemma {:induction false} LengthForth(b: seq<byte>)
    requires |b| == 4
    ensures LengthBytes(LengthOf(b)) == b
  {
    hide ByteOf, NatOf;
    var d0, d1, d2, d3 := NatOf(b[0]), NatOf(b[1]), NatOf(b[2]), NatOf(b[3]);
    DigitsBack(LengthOf(b), d0, d1, d2, d3);
    ByteForth(b[0]);
    ByteForth(b[1]);
    ByteForth(b[2]);
    ByteForth(b[3]);
  }

  lemma {:induction false} DigitsBack(n: nat, d0: nat, d1: nat, d2: nat, d3: nat)
    requires d0 < 256 && d1 < 256 && d2 < 256 && d3 < 256
    requires n == d0 + 256 * d1 + 0x1_0000 * d2 + 0x100_0000 * d3
    ensures n % 256 == d0 && n / 256 % 256 == d1 && n / 256 / 256 % 256 == d2 && n / 256 / 256 / 256 % 256 == d3
  {
    assert n / 256 == d1 + 256 * d2 + 0x1_0000 * d3;
    assert n / 256 / 256 == d2 + 256 * d3;
    assert n / 256 / 256 / 256 == d3;
  }

  /** The bool operands among the operands at the start of `bytes` are 0 or 1. */
  predicate PlainFields(ks: seq<Shape>, bytes: seq<byte>) {
    ks != [] && TakeField(ks[0], bytes).Ok? ==>
      && (ks[0] == Flag ==> bytes[0] <= 1)
      && PlainFields(ks[1..], TakeField(ks[0], bytes).value.1)
  }

  predicate PlainBody(bytes: seq<byte>)
    decreases |bytes|
  {
    bytes != [] && TakeOp(bytes).Ok? ==>
      PlainFields(ReaderLayout(NatOf(bytes[0])).value, bytes[1..]) && PlainBody(TakeOp(bytes).value.1)
  }

  lemma {:induction false} PutFieldBack(k: Shape, bytes: seq<byte>)
    requires TakeField(k, bytes).Ok?
    ensures var (f, rest) := TakeField(k, bytes).value;
            && ShapeOf(f) == k && Sized(f) && |EncodeField(f)| + |rest| == |bytes|
            && (EncodeField(f) + rest == bytes <==> (k == Flag ==> bytes[0] <= 1))
  {
    hide WordBytes, WordOf, WideBytes, WideOf, LengthBytes, LengthOf;
    var (f, rest) := TakeField(k, bytes).value;
    match k {
      case Word =>
        WordForth(bytes[..4]);
        assert bytes[..4] + bytes[4..] == bytes;
      case Wide =>
        WideForth(bytes[..8]);
        assert bytes[..8] + bytes[8..] == bytes;
      case Flag =>
        FlagByte(bytes[0]);
        assert [bytes[0]] + bytes[1..] == bytes;
        assert (EncodeField(f) + rest)[0] == EncodeField(f)[0];
      case Text =>
        LengthForth(bytes[..4]);
        var len := LengthOf(bytes[..4]);
        assert bytes[..4] + bytes[4..4 + len] + bytes[4 + len..] == bytes;
    }
  }

  lemma {:induction false} FlagByte(b: byte)
    ensures (if b != 0 then 1 else 0) == b <==> b <= 1
  {}

  lemma {:induction false} SplitEqual(a: seq<byte>, b: seq<byte>, bytes: seq<byte>, n: nat)
    requires n == |a| && n <= |bytes|
    ensures a + b == bytes <==> a == bytes[..n] && b == bytes[n..]
  {
    if a + b == bytes {
      assert (a + b)[..n] == a && (a + b)[n..] == b;
    }
    assert bytes[..n] + bytes[n..] == bytes;
  }

  lemma {:induction false} PutFieldsBack(ks: seq<Shape>, bytes: seq<byte>)
    requires TakeFields(ks, bytes).Ok?
    ensures var (fs, rest) := TakeFields(ks, bytes).value;
            && Shapes(fs) == ks && (forall i :: 0 <= i < |fs| ==> Sized(fs[i]))
            && |EncodeFields(fs)| + |rest| == |bytes|
            && (EncodeFields(fs) + rest == bytes <==> PlainFields(ks, bytes))
    decreases |ks|
  {
    hide TakeField, EncodeField, ShapeOf, Sized;
    if ks == [] {
      assert [] + bytes == bytes;
    } else {
      var (f, more) := TakeField(ks[0], bytes).value;
      PutFieldBack(ks[0], bytes);
      PutFieldsBack(ks[1..], more);
      var (fs', rest) := TakeFields(ks[1..], more).value;
      var fs := [f] + fs';
      assert fs[1..] == fs' && [ks[0]] + ks[1..] == ks;
      TakeFieldRest(ks[0], bytes);
      var n := |EncodeField(f)|;
      SplitEqual(EncodeField(f), more, bytes, n);
      SplitEqual(EncodeField(f), EncodeFields(fs') + rest, bytes, n);
      Regroup(EncodeField(f), EncodeFields(fs'), rest);
    }
  }

  /** Reading an operand leaves a suffix of the bytes. */
  lemma {:induction false} TakeFieldRest(k: Shape, bytes: seq<byte>)
    requires TakeField(k, bytes).Ok?
    ensures var rest := TakeField(k, bytes).value.1; rest == bytes[|bytes| - |rest|..]
  {
    hide WordOf, WideOf, LengthOf;
  }

  lemma {:induction false} TakeFieldsRest(ks: seq<Shape>, bytes: seq<byte>)
    requires TakeFields(ks, bytes).Ok?
    ensures var rest := TakeFields(ks, bytes).value.1; rest == bytes[|bytes| - |rest|..]
    decreases |ks|
  {
    hide TakeField;
    if ks != [] {
      TakeFieldRest(ks[0], bytes);
      TakeFieldsRest(ks[1..], TakeField(ks[0], bytes).value.1);
    }
  }

  lemma {:induction false} OpTaken(bytes: seq<byte>)
    requires bytes != [] && TakeOp(bytes).Ok?
    ensures var (o, rest) := TakeOp(bytes).value;
            var code := NatOf(bytes[0]);
            && ReaderLayout(code).Some? && o.code == code < 256 && o.extra == ExtraOf(code, o.fields)
            && TakeFields(ReaderLayout(code).value, bytes[1..]) == Ok((o.fields, rest))
            && EncodeOp(o) == [ByteOf(code)] + EncodeFields(o.fields)
  {
    hide ReaderLayout, TakeFields, EncodeFields, ByteOf, NatOf, ExtraOf;
  }

  lemma {:induction false} OpFormed(o: Op)
    requires WriterLayout(o.code) == Some(Shapes(o.fields)) && o.extra == ExtraOf(o.code, o.fields)
    requires forall i :: 0 <= i < |o.fields| ==> Sized(o.fields[i])
    ensures Formed(o) && Faithful(o)
  {
    hide WriterLayout, Sized;
  }

  lemma {:induction false} PutOpBack(bytes: seq<byte>)
    requires bytes != [] && TakeOp(bytes).Ok?
    ensures var (o, rest) := TakeOp(bytes).value;
            && Formed(o) && Faithful(o) && o.code < 256
            && |EncodeOp(o)| + |rest| == |bytes| && rest == bytes[|bytes| - |rest|..]
            && (EncodeOp(o) + rest == bytes <==> PlainFields(ReaderLayout(NatOf(bytes[0])).value, bytes[1..]))
  {
    hide *;
    OpTaken(bytes);
    var code := NatOf(bytes[0]);
    var ks := ReaderLayout(code).value;
    var (o, rest) := TakeOp(bytes).value;
    LayoutsAgree(code);
    PutFieldsBack(ks, bytes[1..]);
    TakeFieldsRest(ks, bytes[1..]);
    OpFormed(o);
    ByteForth(bytes[0]);
    Regroup([ByteOf(code)], EncodeFields(o.fields), rest);
    SplitEqual([ByteOf(code)], EncodeFields(o.fields) + rest, bytes, 1);
  }

  /** Whatever body the reader accepts is one that the writer could have written, with every break jump
      set, and writing the program again gives the same body exactly when its bools are stored as 0 or 1. */
  lemma {:induction false} EncodeDecode(bytes: seq<byte>)
    requires Decode(bytes).Ok?
    ensures var code := Decode(bytes).value;
            && FormedCode(code) && (forall i :: 0 <= i < |code| ==> Faithful(code[i]) && code[i].code < 256)
            && |Encode(code)| == |bytes|
            && (Encode(code) == bytes <==> PlainBody(bytes))
    decreases |bytes|
  {
    hide TakeOp, EncodeOp, Formed, Faithful, PlainFields, ReaderLayout;
    if bytes != [] {
      var (o, rest) := TakeOp(bytes).value;
      PutOpBack(bytes);
      EncodeDecode(rest);
      var more := Decode(rest).value;
      var code := [o] + more;
      assert code[1..] == more;
      var n := |EncodeOp(o)|;
      SplitEqual(EncodeOp(o), rest, bytes, n);
      SplitEqual(EncodeOp(o), Encode(more), bytes, n);
    }
  }

  // ----- files -----

  /** A file: the header's checksum and the body. The rest of the header is not part of this model. */
  datatype File = File(checksum: bv32, body: seq<byte>)

  function Write(code: seq<Op>): File
    requires forall i :: 0 <= i < |code| ==> code[i].code < 256
  {
    File(Sum(Encode(code)), Encode(code))
  }

  /** An opcode of the right kind, whatever its operands. */
  ghost predicate OfKind(o: Op, code: nat) {
    o.code == code && ReaderLayout(code) == Some(Shapes(o.fields)) && o.extra == ExtraOf(code, o.fields)
  }

  /** All opcodes of a body but the last are as written, and the last, which is cut off, has some operands. */
  ghost predicate Patched(body: seq<byte>, code: seq<Op>) {
    var b, os := Broken(body), Whole(body);
    b != [] && |code| == |os| + 1 && code[..|os|] == os && OfKind(code[|os|], NatOf(b[0]))
  }

  predicate HasText(bytes: seq<byte>) {
    bytes != [] && ReaderLayout(NatOf(bytes[0])).Some? && Text in ReaderLayout(NatOf(bytes[0])).value
  }

  /** What reading a file may come to. A body that ends inside an opcode is no error by itself: what is
      missing is whatever memory holds, and the checksum is taken of what was read completely. When a
      missing part is the length of a string, the string may also overrun its buffer. */
  ghost predicate Reads(file: File, r: Result<seq<Op>, ReadError>) {
    var same := Sum(file.body[..Covered(file.body)]) == file.checksum;
    match Decode(file.body)
    case Ok(code) => r == if same then Ok(code) else Err(ChecksumMismatch)
    case Err(Truncated) =>
      || (HasText(Broken(file.body)) && r == Err(BufferOverrun))
      || (if same then r.Ok? && Patched(file.body, r.value) else r == Err(ChecksumMismatch))
    case Err(e) => r == Err(e)
  }

  // ----- what the checksum guards -----

  lemma {:induction false} DecodedWhole(bytes: seq<byte>)
    ensures Decode(bytes).Ok? <==> Broken(bytes) == []
    ensures Decode(bytes).Ok? ==> Whole(bytes) == Decode(bytes).value
    ensures Decode(bytes).Err? ==> TakeOp(Broken(bytes)) == Err(Decode(bytes).error)
    decreases |bytes|
  {
    hide TakeOp;
    if bytes != [] && TakeOp(bytes).Ok? {
      DecodedWhole(TakeOp(bytes).value.1);
    }
  }

  /** The body ends inside an opcode, and its bytes but for the last operand have the right checksum. */
  ghost predicate CutUnnoticed(file: File) {
    Decode(file.body) == Err(Truncated) && Sum(file.body[..Covered(file.body)]) == file.checksum
  }

  lemma {:induction false} CoveredAll(bytes: seq<byte>)
    requires Decode(bytes).Ok?
    ensures Covered(bytes) == |bytes| && bytes[..Covered(bytes)] == bytes
  {
    DecodedWhole(bytes);
  }

  /** A file is accepted exactly when its opcodes are known, its strings fit, and the checksum is that of the
      bytes read completely; unless a cut string happens to overrun. */
  lemma {:induction false} ReadsExactly(file: File, r: Result<seq<Op>, ReadError>)
    requires Reads(file, r)
    ensures r.Ok? ==> Sum(file.body[..Covered(file.body)]) == file.checksum && (Decode(file.body).Ok? || CutUnnoticed(file))
    ensures (Decode(file.body).Ok? && Sum(file.body) == file.checksum) || CutUnnoticed(file) ==> r.Ok? || r == Err(BufferOverrun)
    ensures Decode(file.body).Ok? ==> Covered(file.body) == |file.body|
  {
    hide Decode, Sum, Patched, HasText, Broken, Covered;
    if Decode(file.body).Ok? {
      CoveredAll(file.body);
    }
  }

  /** What the writer has written is read back. */
  lemma {:induction false} WrittenRead(code: seq<Op>, r: Result<seq<Op>, ReadError>)
    requires FormedCode(code)
    ensures forall i :: 0 <= i < |code| ==> code[i].code < 256
    ensures Reads(Write(code), r) <==> r == Ok(ReadBackAll(code))
  {
    hide Decode, Encode, Sum, Formed, Patched, HasText, Covered, ReadBackAll;
    DecodeEncode(code);
    CoveredAll(Encode(code));
  }

  /** A file that has been changed in at most 32 consecutive bits of its body is refused, unless the change
      makes an opcode longer than the rest of the file and the bytes before happen to have the checksum. */
  lemma {:induction false} BurstRefused(code: seq<Op>, body: seq<byte>, p: nat, r: Result<seq<Op>, ReadError>)
    requires forall i :: 0 <= i < |code| ==> code[i].code < 256
    requires WithinBurst(Encode(code), body, p) && body != Encode(code)
    requires Reads(File(Write(code).checksum, body), r)
    ensures r.Ok? ==> CutUnnoticed(File(Write(code).checksum, body))
    ensures CutUnnoticed(File(Write(code).checksum, body)) ==> r.Ok? || r == Err(BufferOverrun)
  {
    hide Sum, Decode, Encode, Covered, CutUnnoticed, Reads, WithinBurst;
    BurstDetected(Encode(code), body, p);
    var file := File(Write(code).checksum, body);
    ReadsExactly(file, r);
    if Decode(body).Ok? {
      CoveredAll(body);
    }
  }

  const JMP_IF_FALSE: nat := 24
  const STORE_INT_CONST: nat := 16

  /** For every condition register `a` there is an address such that one flipped bit in the file of a single
      `JMP_IF_FALSE` goes unnoticed: it becomes a `STORE_INT_CONST`, whose number is cut off. */
  function Flippable(a: bv32): seq<Op> {
    var y := Crc(Feed(ALL_ONES, 0x18), WordBytes(a));
    [Op(JMP_IF_FALSE, [WordF(a), WordF(Xor(y, Xor(Feed(ALL_ONES, 0x10), a)))], Nothing)]
  }

  lemma {:induction false} FlippedBit(a: bv32, r: Result<seq<Op>, ReadError>)
    ensures FormedCode(Flippable(a)) && forall i :: 0 <= i < |Flippable(a)| ==> Flippable(a)[i].code < 256
    ensures var body := Encode(Flippable(a));
            var flipped := [0x10] + body[1..];
            && |body| == 9 && body[0] == 0x18 && flipped != body && WithinBurst(body, flipped, 0)
            && (Reads(File(Write(Flippable(a)).checksum, flipped), r) ==> r.Ok?)
  {
    hide *;
    var code := Flippable(a);
    FlippableBody(a);
    var body := Encode(code);
    var flipped := [0x10] + body[1..];
    var b := code[0].fields[1].w;
    assert body[1..5] == WordBytes(a) && flipped[0] == 0x10;
    FlippableSum(a);
    FlippedCut(body);
    FlippedNear(body, flipped);
    CutFile(code, flipped);
    if Reads(File(Write(code).checksum, flipped), r) {
      ReadsCut(File(Write(code).checksum, flipped), r);
    }
  }

  lemma {:induction false} FlipCodes()
    ensures ByteOf(JMP_IF_FALSE) == 0x18 && NatOf(0x10) == STORE_INT_CONST
    ensures WriterLayout(JMP_IF_FALSE) == Some([Word, Word]) && ReaderLayout(STORE_INT_CONST) == Some([Word, Wide])
  {}

  lemma {:induction false} FlippableBody(a: bv32)
    ensures var code := Flippable(a);
            && FormedCode(code) && (forall i :: 0 <= i < |code| ==> code[i].code < 256)
            && code[0].fields[1].WordF? && |code| == 1 && |code[0].fields| == 2
            && Encode(code) == [0x18] + (WordBytes(a) + WordBytes(code[0].fields[1].w))
  {
    hide Crc, Feed, Xor, WordBytes, ByteOf, WriterLayout;
    FlipCodes();
    var fs := Flippable(a)[0].fields;
    assert fs[1..] == [fs[1]] && fs[1..][1..] == [] && Flippable(a)[1..] == [];
    assert Shapes(fs[1..][1..]) == [] && Shapes(fs[1..]) == [Word] && Shapes(fs) == [Word, Word];
    assert EncodeFields(fs[1..][1..]) == [] && EncodeFields(fs[1..]) == WordBytes(fs[1].w) + [] == WordBytes(fs[1].w);
  }

  /** The five bytes before the number have the checksum of the whole body. */
  lemma {:induction false} FlippableSum(a: bv32)
    ensures var b := Flippable(a)[0].fields[1];
            && b.WordF? && Sum([0x10] + WordBytes(a)) == Sum([0x18] + (WordBytes(a) + WordBytes(b.w)))
  {
    hide Not, Crc, Feed, Xor, WordBytes;
    var y := Crc(Feed(ALL_ONES, 0x18), WordBytes(a));
    var z := Xor(Feed(ALL_ONES, 0x10), a);
    Chunks(ALL_ONES, [0x10], WordBytes(a));
    Chunks(ALL_ONES, [0x18], WordBytes(a) + WordBytes(Xor(y, z)));
    OneByte(ALL_ONES, 0x10);
    OneByte(ALL_ONES, 0x18);
    Chunks(Feed(ALL_ONES, 0x18), WordBytes(a), WordBytes(Xor(y, z)));
    FeedsWord(Feed(ALL_ONES, 0x10), a);
    FeedsWord(y, Xor(y, z));
    XorTwice(y, z);
  }

  lemma {:induction false} FeedsWord(c: bv32, w: bv32)
    ensures Crc(c, WordBytes(w)) == Advance(Advance(Advance(Advance(Xor(c, w)))))
  {
    hide Crc, Feed, Advance, Xor, WordBytes;
    var b := WordBytes(w);
    FourBytes(c, b);
    FeedWord(c, b[0], b[1], b[2], b[3]);
    WordOfBytes(w);
  }

  lemma {:induction false} WordOfBytes(w: bv32)
    ensures var b := WordBytes(w); Word4(b[0], b[1], b[2], b[3]) == w
  {}

  /** A body and its checksum, stored behind it as the header stores it, leave the same register for every body. */
  lemma {:induction false} Residue(body: seq<byte>)
    ensures Crc(ALL_ONES, body + WordBytes(Sum(body))) == 0xDEBB20E3
  {
    hide Crc, WordBytes, Advance, Not, Xor;
    Chunks(ALL_ONES, body, WordBytes(Sum(body)));
    FeedsWord(Crc(ALL_ONES, body), Sum(body));
    XorNot(Crc(ALL_ONES, body));
    AdvanceOnes();
  }

  lemma {:induction false} FlippedCut(body: seq<byte>)
    requires |body| == 9
    ensures var flipped := [0x10] + body[1..];
            && Decode(flipped) == Err(Truncated) && flipped[..Covered(flipped)] == [0x10] + body[1..5]
            && !HasText(Broken(flipped))
  {
    hide WordOf, WideOf, NatOf, ReaderLayout;
    FlipCodes();
    var flipped := [0x10] + body[1..];
    var bytes, ks := flipped[1..], [Word, Wide];
    assert bytes == body[1..] && |bytes[4..]| == 4 && ks[1..] == [Wide];
    assert TakeField(Wide, bytes[4..]) == Err(Truncated);
    assert TakeFields([Wide], bytes[4..]) == Err(Truncated) && CoveredFields([Wide], bytes[4..]) == 0;
    assert TakeFields(ks, bytes) == Err(Truncated) && CoveredFields(ks, bytes) == 4;
    assert TakeOp(flipped) == Err(Truncated);
  }

  lemma {:induction false} FlippedNear(body: seq<byte>, flipped: seq<byte>)
    requires |body| == 9 && flipped == [0x10] + body[1..]
    ensures WithinBurst(body, flipped, 0)
  {
    hide WithinBurst;
    assert forall i :: 1 <= i < 9 ==> flipped[i] == body[i];
    FourBytesDetected(body, flipped, 0);
  }

  lemma {:induction false} CutFile(code: seq<Op>, body: seq<byte>)
    requires forall i :: 0 <= i < |code| ==> code[i].code < 256
    requires Decode(body) == Err(Truncated) && Sum(body[..Covered(body)]) == Sum(Encode(code))
    ensures CutUnnoticed(File(Write(code).checksum, body))
  {
    hide Decode, Covered, Sum, Encode;
  }

  lemma {:induction false} ReadsCut(file: File, r: Result<seq<Op>, ReadError>)
    requires CutUnnoticed(file) && !HasText(Broken(file.body)) && Reads(file, r)
    ensures r.Ok?
  {
    hide Decode, HasText, Broken, Covered, Sum, Patched;
  }

  // ----- the writer and the reader -----

  class BytecodeWriter {
    var stream: seq<byte>
    var crc: bv32

    constructor ()
      ensures stream == [] && crc == ALL_ONES
    {
      stream, crc := [], ALL_ONES;
    }

    method WriteRaw(data: seq<byte>)
      modifies this
      ensures stream == old(stream) + data && crc == Crc(old(crc), data)
    {
      stream := stream + data;
      crc := Update(crc, data);
    }

    method WriteString(s: seq<byte>)
      modifies this
      ensures stream == old(stream) + (LengthBytes(|s|) + s) && crc == Crc(old(crc), LengthBytes(|s|) + s)
    {
      hide Crc, LengthBytes;
      Chunks(crc, LengthBytes(|s|), s);
      WriteRaw(LengthBytes(|s|));
      WriteRaw(s);
    }

    method WriteField(f: Field)
      modifies this
      ensures stream == old(stream) + EncodeField(f) && crc == Crc(old(crc), EncodeField(f))
    {
      hide Crc, LengthBytes, WordBytes, WideBytes;
      match f {
        case WordF(w) => WriteRaw(WordBytes(w));
        case WideF(v) => WriteRaw(WideBytes(v));
        case FlagF(b) => WriteRaw([if b then 1 else 0]);
        case TextF(s) => WriteString(s);
      }
    }

    method WriteOp(o: Op)
      requires o.code < 256
      modifies this
      ensures stream == old(stream) + EncodeOp(o) && crc == Crc(old(crc), EncodeOp(o))
    {
      hide Crc, EncodeField, EncodeFields;
      WriteRaw([ByteOf(o.code)]);
      ghost var done := [ByteOf(o.code)];
      NoFields(o.fields[|o.fields|..]);
      assert o.fields[0..] == o.fields && o.fields[|o.fields|..] == [];
      for i := 0 to |o.fields|
        invariant stream == old(stream) + done && crc == Crc(old(crc), done)
        invariant done + EncodeFields(o.fields[i..]) == EncodeOp(o)
      {
        FirstField(o.fields[i..]);
        assert o.fields[i..][1..] == o.fields[i + 1..];
        Chunks(old(crc), done, EncodeField(o.fields[i]));
        WriteField(o.fields[i]);
        done := done + EncodeField(o.fields[i]);
      }
      assert done + [] == done;
    }

    /** `BytecodeWriter::write`, the body and its checksum. */
    method WriteFile(code: seq<Op>) returns (file: File)
      requires stream == [] && crc == ALL_ONES
      requires forall i :: 0 <= i < |code| ==> code[i].code < 256
      modifies this
      ensures file == Write(code)
    {
      hide Crc, EncodeOp, Encode;
      NoOps(code[|code|..]);
      NoBytes(ALL_ONES);
      assert code[0..] == code && code[|code|..] == [];
      for i := 0 to |code|
        invariant crc == Crc(ALL_ONES, stream)
        invariant stream + Encode(code[i..]) == Encode(code)
      {
        FirstOp(code[i..]);
        assert code[i..][1..] == code[i + 1..];
        Chunks(ALL_ONES, stream, EncodeOp(code[i]));
        WriteOp(code[i]);
      }
      assert stream + [] == stream;
      file := File(Checksum.Not(crc), stream);
    }
  }

  lemma {:induction false} NoFields(fs: seq<Field>)
    ensures fs == [] ==> EncodeFields(fs) == []
  {}

  lemma {:induction false} FirstField(fs: seq<Field>)
    requires fs != []
    ensures EncodeFields(fs) == EncodeField(fs[0]) + EncodeFields(fs[1..])
  {}

  lemma {:induction false} NoOps(code: seq<Op>)
    ensures code == [] ==> Encode(code) == []
  {}

  lemma {:induction false} FirstOp(code: seq<Op>)
    requires code != [] && forall i :: 0 <= i < |code| ==> code[i].code < 256
    ensures Encode(code) == EncodeOp(code[0]) + Encode(code[1..])
  {}

  class BytecodeReader {
    const stream: seq<byte>
    var pos: nat
    var eof: bool
    var crc: bv32
    var bufferSize: nat
    /** What memory holds where nothing has been read to, and how much of that has been looked at. */
    const memory: nat -> byte
    var used: nat

    predicate Valid()
      reads this
    {
      pos <= |stream| && bufferSize <= MAX_STRING
    }

    constructor (body: seq<byte>, content: nat -> byte)
      ensures Valid() && stream == body && pos == 0 && !eof && crc == ALL_ONES
    {
      stream, pos, eof, crc, bufferSize := body, 0, false, ALL_ONES, BUFFER_SIZE;
      memory, used := content, 0;
    }

    function Rest(): seq<byte>
      reads this
      requires Valid()
    {
      stream[pos..]
    }

    /** A short read sets the end-of-file flag and leaves the checksum alone; the data is then filled up with
        what memory holds. */
    method ReadRaw(size: nat) returns (data: seq<byte>)
      requires Valid()
      modifies this
      ensures Valid() && bufferSize == old(bufferSize) && |data| == size
      ensures size <= |old(Rest())| ==>
                && data == old(Rest())[..size] && Rest() == old(Rest())[size..] && eof == old(eof)
                && crc == Crc(old(crc), data)
      ensures size > |old(Rest())| ==> eof && crc == old(crc) && pos == |stream| && data[..|old(Rest())|] == old(Rest())
    {
      if |stream| - pos < size {
        var missing, at, content := size - (|stream| - pos), used, memory;
        data := stream[pos..] + seq(missing, i requires 0 <= i < missing => content(at + i));
        pos, eof, used := |stream|, true, used + missing;
        return;
      }
      data := stream[pos..pos + size];
      pos := pos + size;
      crc := Update(crc, data);
    }

    /** The bytes read are gone from the rest and the checksum has seen exactly them. */
    twostate predicate Consumed()
      requires old(Valid()) && Valid()
      reads this
    {
      Fed(old(crc), old(Rest()), crc, Rest()) && eof == old(eof)
    }

    /** The stream is at its end and the checksum has seen only the first `n` of the bytes left. */
    twostate predicate CutShort(n: nat)
      requires old(Valid()) && Valid()
      reads this
    {
      eof && Rest() == [] && FedFirst(old(crc), old(Rest()), crc, n)
    }

    method ReadString() returns (r: Result<Field, ReadError>)
      requires Valid()
      modifies this
      ensures Valid()
      ensures match TakeField(Text, old(Rest()))
              case Ok((f, rest)) => r == Ok(f) && Rest() == rest && Consumed()
              case Err(Truncated) =>
                CutShort(CoveredField(Text, old(Rest()))) && (r == Err(BufferOverrun) || (r.Ok? && r.value.TextF?))
              case Err(e) => r == Err(e)
    {
      hide LengthOf, LengthBytes, Crc;
      ghost var bytes := Rest();
      NoBytes(crc);
      NoBytes(Crc(crc, bytes[..if |bytes| < 4 then 0 else 4]));
      var prefix := ReadRaw(4);
      var len := LengthOf(prefix);
      LengthBound(prefix);
      if len > bufferSize {
        GrownFits(len);
        bufferSize := Grown(len);
      }
      assert |bytes| < 4 ==> FedFirst(old(crc), bytes, crc, 0) && Rest() == [];
      if len > bufferSize {
        return Err(BufferOverrun);
      }
      StringRead(old(crc), bytes, len);
      var data := ReadRaw(len);
      r := Ok(TextF(data));
    }

    method ReadField(k: Shape) returns (r: Result<Field, ReadError>)
      requires Valid()
      modifies this
      ensures Valid()
      ensures match TakeField(k, old(Rest()))
              case Ok((f, rest)) => r == Ok(f) && Rest() == rest && Consumed()
              case Err(Truncated) =>
                && CutShort(CoveredField(k, old(Rest())))
                && ((k == Text && r == Err(BufferOverrun)) || (r.Ok? && ShapeOf(r.value) == k))
              case Err(e) => r == Err(e)
    {
      hide WordOf, WideOf, WordBytes, WideBytes, LengthOf, LengthBytes, Crc;
      NoBytes(crc);
      assert Rest()[..0] == [];
      match k {
        case Word =>
          var data := ReadRaw(4);
          r := Ok(WordF(WordOf(data)));
        case Wide =>
          var data := ReadRaw(8);
          r := Ok(WideF(WideOf(data)));
        case Flag =>
          var data := ReadRaw(1);
          r := Ok(FlagF(data[0] != 0));
        case Text =>
          r := ReadString();
      }
    }

    method ReadFields(ks: seq<Shape>) returns (r: Result<seq<Field>, ReadError>)
      requires Valid()
      modifies this
      ensures Valid()
      ensures match TakeFields(ks, old(Rest()))
              case Ok((fs, rest)) => r == Ok(fs) && Rest() == rest && Consumed()
              case Err(Truncated) =>
                && CutShort(CoveredFields(ks, old(Rest())))
                && ((Text in ks && r == Err(BufferOverrun)) || (r.Ok? && Shapes(r.value) == ks))
              case Err(e) => r == Err(e)
    {
      hide TakeField, TakeFields, CoveredFields, CoveredField, After, Fed, FedFirst;
      ghost var bytes := Rest();
      var fs: seq<Field> := [];
      FedNothing(crc, bytes);
      assert ks[0..] == ks && ks[|ks|..] == [];
      AfterNothing(TakeFields(ks, bytes));
      ghost var cut := false;
      for i := 0 to |ks|
        invariant Valid() && Shapes(fs) == ks[..i]
        invariant !cut ==>
                    && Consumed() && TakeFields(ks, bytes) == After(fs, TakeFields(ks[i..], Rest()))
                    && CoveredFields(ks, bytes) == |bytes| - |Rest()| + CoveredFields(ks[i..], Rest())
        invariant cut ==> TakeFields(ks, bytes) == Err(Truncated) && CutShort(CoveredFields(ks, bytes))
      {
        ghost var before, c, first := Rest(), crc, TakeField(ks[i], Rest());
        FirstTaken(ks[i..], before);
        FirstCovered(ks[i..], before);
        TakenShape(ks[i], before);
        assert ks[i..][1..] == ks[i + 1..];
        var f := ReadField(ks[i]);
        if first.Err? {
          AfterError(fs, first.error);
          if !cut && first.error == Truncated {
            FedCut(old(crc), bytes, c, before, crc, CoveredField(ks[i], before));
            cut := true;
          } else if cut {
            FedNone(c, before, crc);
          }
        }
        if f.Err? {
          return Err(f.error);
        }
        if !cut {
          FedMore(old(crc), bytes, c, before, crc, Rest());
          AfterOne(fs, f.value, TakeFields(ks[i + 1..], Rest()));
        }
        OneShape(fs, f.value, ks, i);
        fs := fs + [f.value];
      }
      AfterAll(fs, Rest());
      assert ks[..|ks|] == ks;
      r := Ok(fs);
    }

    method ReadOp(code: nat) returns (r: Result<Op, ReadError>)
      requires Valid()
      modifies this
      ensures Valid()
      ensures match ReaderLayout(code)
              case None => r == Err(UnknownOpcode)
              case Some(ks) =>
                match TakeFields(ks, old(Rest()))
                case Ok((fs, rest)) => r == Ok(Op(code, fs, ExtraOf(code, fs))) && Rest() == rest && Consumed()
                case Err(Truncated) =>
                  && CutShort(CoveredFields(ks, old(Rest())))
                  && ((Text in ks && r == Err(BufferOverrun)) || (r.Ok? && OfKind(r.value, code)))
                case Err(e) => r == Err(e)
    {
      hide ReaderLayout, TakeFields, CoveredFields, Fed, FedFirst, ExtraOf, Shapes;
      var ks := ReaderLayout(code);
      if ks.None? {
        return Err(UnknownOpcode);
      }
      var fs := ReadFields(ks.value);
      r := match fs case Err(e) => Err(e) case Ok(v) => Ok(Op(code, v, ExtraOf(code, v)));
    }

    /** `BytecodeReader::read`: opcodes until the end of the file, then the checksum. */
    method ReadFile(checksum: bv32) returns (r: Result<seq<Op>, ReadError>)
      requires Valid() && pos == 0 && !eof && crc == ALL_ONES
      modifies this
      ensures Reads(File(checksum, stream), r)
    {
      hide Crc, Decode, TakeOp, ReaderLayout, TakeFields, CoveredFields, NatOf, ExtraOf, OfKind, Reads, ReadTo, ReadCut, Fed, FedFirst,
        Broken, Whole, HasText;
      var code: seq<Op> := [];
      ghost var cut := false;
      ReadStart(stream);
      while !eof
        invariant Valid()
        invariant !cut ==> ReadTo(stream, code, pos, crc) && (eof ==> pos == |stream|)
        invariant cut ==> eof && ReadCut(stream, code, crc)
        decreases !eof, |stream| - pos
      {
        ghost var at, c, bytes := pos, crc, Rest();
        var opc := ReadRaw(1);
        if eof {
          break;
        }
        ghost var c1 := crc;
        assert bytes[..1] == [bytes[0]];
        OpFirst(bytes);
        var o := ReadOp(NatOf(opc[0]));
        if o.Err? {
          BrokenOp(stream, code, at, c);
          FailedRead(File(checksum, stream), o.error);
          return Err(o.error);
        }
        if TakeOp(bytes).Ok? {
          WholeOp(stream, code, at, c, c1, pos, crc);
        } else {
          CutOp(stream, code, at, c, c1, crc, o.value);
        }
        cut := eof;
        code := code + [o.value];
      }
      FileRead(stream, code, crc, checksum, cut);
      if Checksum.Not(crc) != checksum {
        return Err(ChecksumMismatch);
      }
      r := Ok(code);
    }
  }

  // ----- the loop of the reader -----

  /** Up to `pos` the opcodes are `code`, and the rest is still to be read. */
  ghost predicate ReadTo(stream: seq<byte>, code: seq<Op>, pos: nat, crc: bv32) {
    && pos <= |stream| && Decode(stream) == CodeAfter(code, Decode(stream[pos..]))
    && Whole(stream) == code + Whole(stream[pos..]) && Broken(stream) == Broken(stream[pos..])
    && crc == Crc(ALL_ONES, stream[..pos])
  }

  /** The last opcode has been cut off. */
  ghost predicate ReadCut(stream: seq<byte>, code: seq<Op>, crc: bv32) {
    Decode(stream) == Err(Truncated) && Patched(stream, code) && crc == Crc(ALL_ONES, stream[..Covered(stream)])
  }

  lemma {:induction false} ReadStart(stream: seq<byte>)
    ensures ReadTo(stream, [], 0, ALL_ONES)
  {
    hide Decode, Whole, Broken;
    NoBytes(ALL_ONES);
    CodeAfterNothing(Decode(stream));
    assert stream[0..] == stream && stream[..0] == [] && [] + Whole(stream) == Whole(stream);
  }

  lemma {:induction false} OpFirst(bytes: seq<byte>)
    ensures bytes != [] ==>
      TakeOp(bytes) == match ReaderLayout(NatOf(bytes[0]))
                       case None => Err(UnknownOpcode)
                       case Some(ks) =>
                         match TakeFields(ks, bytes[1..])
                         case Err(e) => Err(e)
                         case Ok((fs, rest)) => Ok((Op(NatOf(bytes[0]), fs, ExtraOf(NatOf(bytes[0]), fs)), rest))
  {
    hide ReaderLayout, TakeFields, NatOf, ExtraOf;
  }

  lemma {:induction false} ReadsOn(bytes: seq<byte>)
    requires bytes != []
    ensures TakeOp(bytes).Err? ==> Decode(bytes) == Err(TakeOp(bytes).error) && Whole(bytes) == [] && Broken(bytes) == bytes
    ensures TakeOp(bytes).Ok? ==>
              var (o, rest) := TakeOp(bytes).value;
              Decode(bytes) == CodeAfter([o], Decode(rest)) && Whole(bytes) == [o] + Whole(rest) && Broken(bytes) == Broken(rest)
  {
    hide TakeOp;
  }

  lemma {:induction false} WholeOp(stream: seq<byte>, code: seq<Op>, at: nat, c: bv32, c1: bv32, pos: nat, crc: bv32)
    requires ReadTo(stream, code, at, c) && at < |stream| && pos <= |stream|
    requires TakeOp(stream[at..]).Ok? && TakeOp(stream[at..]).value.1 == stream[pos..]
    requires c1 == Crc(c, [stream[at]]) && Fed(c1, stream[at..][1..], crc, stream[pos..])
    ensures ReadTo(stream, code + [TakeOp(stream[at..]).value.0], pos, crc)
  {
    hide TakeOp, Decode, Whole, Broken, Crc;
    var bytes, rest := stream[at..], stream[pos..];
    var o := TakeOp(bytes).value.0;
    ReadsOn(bytes);
    CodeAfterOne(code, o, Decode(rest));
    Regroup(code, [o], Whole(rest));
    OneMore(stream, at, c, c1);
    assert stream[at..][1..] == stream[at + 1..];
    ReadMore(ALL_ONES, stream, at + 1, pos);
  }

  lemma {:induction false} OneMore(stream: seq<byte>, at: nat, c: bv32, c1: bv32)
    requires at < |stream| && c == Crc(ALL_ONES, stream[..at]) && c1 == Crc(c, [stream[at]])
    ensures c1 == Crc(ALL_ONES, stream[..at + 1])
  {
    hide Crc;
    Chunks(ALL_ONES, stream[..at], [stream[at]]);
    assert stream[..at] + [stream[at]] == stream[..at + 1];
  }

  lemma {:induction false} BrokenOp(stream: seq<byte>, code: seq<Op>, at: nat, c: bv32)
    requires ReadTo(stream, code, at, c) && at < |stream| && TakeOp(stream[at..]).Err?
    ensures Decode(stream) == Err(TakeOp(stream[at..]).error) && Broken(stream) == stream[at..] && Whole(stream) == code
    ensures ReaderLayout(NatOf(stream[at])).Some? ==> (HasText(Broken(stream)) <==> Text in ReaderLayout(NatOf(stream[at])).value)
  {
    hide TakeOp, Decode, Whole, Broken, Crc, ReaderLayout, NatOf;
    ReadsOn(stream[at..]);
    assert code + [] == code;
  }

  lemma {:induction false} CutOp(stream: seq<byte>, code: seq<Op>, at: nat, c: bv32, c1: bv32, crc: bv32, o: Op)
    requires ReadTo(stream, code, at, c) && at < |stream| && TakeOp(stream[at..]) == Err(Truncated)
    requires OfKind(o, NatOf(stream[at])) && c1 == Crc(c, [stream[at]]) && ReaderLayout(NatOf(stream[at])).Some?
    requires FedFirst(c1, stream[at..][1..], crc, CoveredFields(ReaderLayout(NatOf(stream[at])).value, stream[at..][1..]))
    ensures ReadCut(stream, code + [o], crc)
  {
    hide TakeOp, Decode, Whole, Broken, Crc, ReaderLayout, NatOf, CoveredFields, OfKind;
    BrokenOp(stream, code, at, c);
    OneMore(stream, at, c, c1);
    var n := CoveredFields(ReaderLayout(NatOf(stream[at])).value, stream[at..][1..]);
    assert stream[at..][1..] == stream[at + 1..];
    ReadMore(ALL_ONES, stream, at + 1, at + 1 + n);
    assert (code + [o])[..|code|] == code;
  }

  lemma {:induction false} FailedRead(file: File, e: ReadError)
    requires Decode(file.body).Err?
    requires Decode(file.body) == Err(Truncated) ==> e == BufferOverrun && HasText(Broken(file.body))
    requires Decode(file.body) != Err(Truncated) ==> Decode(file.body) == Err(e)
    ensures Reads(file, Err(e))
  {
    hide Decode, HasText, Broken, Covered, Sum;
  }

  lemma {:induction false} FileRead(stream: seq<byte>, code: seq<Op>, crc: bv32, checksum: bv32, cut: bool)
    requires if cut then ReadCut(stream, code, crc) else ReadTo(stream, code, |stream|, crc)
    ensures Reads(File(checksum, stream), if Not(crc) != checksum then Err(ChecksumMismatch) else Ok(code))
  {
    hide Decode, Covered, Patched, HasText, Whole, Broken, Crc, Not;
    if !cut {
      assert stream[..|stream|] == stream && stream[|stream|..] == [];
      NoneDecoded(stream[|stream|..]);
      assert code + [] == code;
      CoveredAll(stream);
    }
  }

  /** From `bytes` on to `rest`, a checksum register goes from `c` to `c1`. */
  predicate Fed(c: bv32, bytes: seq<byte>, c1: bv32, rest: seq<byte>) {
    var n := |bytes| - |rest|;
    0 <= n && rest == bytes[n..] && c1 == Crc(c, bytes[..n])
  }

  lemma {:induction false} FedNothing(c: bv32, bytes: seq<byte>)
    ensures Fed(c, bytes, c, bytes)
  {
    NoBytes(c);
    assert bytes[..0] == [] && bytes[0..] == bytes;
  }

  lemma {:induction false} FedMore(c: bv32, bytes: seq<byte>, c1: bv32, more: seq<byte>, c2: bv32, rest: seq<byte>)
    requires Fed(c, bytes, c1, more) && Fed(c1, more, c2, rest)
    ensures Fed(c, bytes, c2, rest)
  {
    hide Crc;
    ReadMore(c, bytes, |bytes| - |more|, |bytes| - |rest|);
  }

  /** Of `bytes`, the register has seen the first `n`. */
  predicate FedFirst(c: bv32, bytes: seq<byte>, c1: bv32, n: nat) {
    n <= |bytes| && c1 == Crc(c, bytes[..n])
  }

  lemma {:induction false} FedCut(c: bv32, bytes: seq<byte>, c1: bv32, more: seq<byte>, c2: bv32, n: nat)
    requires Fed(c, bytes, c1, more) && FedFirst(c1, more, c2, n)
    ensures FedFirst(c, bytes, c2, |bytes| - |more| + n)
  {
    hide Crc;
    ReadMore(c, bytes, |bytes| - |more|, |bytes| - |more| + n);
  }

  lemma {:induction false} FedNone(c: bv32, bytes: seq<byte>, c1: bv32)
    requires FedFirst(c, bytes, c1, 0)
    ensures c1 == c
  {
    NoBytes(c);
    assert bytes[..0] == [];
  }

  lemma {:induction false} StringRead(c: bv32, bytes: seq<byte>, len: nat)
    ensures 4 + len <= |bytes| ==>
              && Crc(c, bytes[..4 + len]) == Crc(Crc(c, bytes[..4]), bytes[4..][..len])
              && bytes[4..][len..] == bytes[4 + len..] && bytes[4..][..len] == bytes[4..4 + len]
  {
    hide Crc;
    if 4 + len <= |bytes| {
      ReadMore(c, bytes, 4, 4 + len);
    }
  }

  lemma {:induction false} FirstCovered(ks: seq<Shape>, bytes: seq<byte>)
    requires ks != []
    ensures CoveredFields(ks, bytes)
         == match TakeField(ks[0], bytes)
            case Err(_) => CoveredField(ks[0], bytes)
            case Ok((_, rest)) => |bytes| - |rest| + CoveredFields(ks[1..], rest)
  {
    hide TakeField, CoveredField;
  }

  lemma {:induction false} TakenShape(k: Shape, bytes: seq<byte>)
    ensures TakeField(k, bytes).Ok? ==> ShapeOf(TakeField(k, bytes).value.0) == k
    ensures bytes == [] ==> TakeField(k, bytes) == Err(Truncated) && CoveredField(k, bytes) == 0
  {
    hide WordOf, WideOf, LengthOf;
  }

  lemma {:induction false} OneShape(fs: seq<Field>, f: Field, ks: seq<Shape>, i: nat)
    requires i < |ks| && Shapes(fs) == ks[..i] && ShapeOf(f) == ks[i]
    ensures Shapes(fs + [f]) == ks[..i + 1]
  {
    hide Shapes, ShapeOf;
    ShapesSnoc(fs, f);
  }

  lemma {:induction false} ShapesSnoc(fs: seq<Field>, f: Field)
    ensures Shapes(fs + [f]) == Shapes(fs) + [ShapeOf(f)]
    decreases |fs|
  {
    hide ShapeOf;
    if fs != [] {
      ShapesSnoc(fs[1..], f);
      assert (fs + [f])[1..] == fs[1..] + [f];
    } else {
      assert fs + [f] == [f] && [f][1..] == [];
    }
  }

  lemma {:induction false} ReadMore(c: bv32, bytes: seq<byte>, m: nat, n: nat)
    requires m <= n <= |bytes|
    ensures Crc(c, bytes[..n]) == Crc(Crc(c, bytes[..m]), bytes[m..][..n - m])
    ensures bytes[m..][n - m..] == bytes[n..]
  {
    assert bytes[..m] + bytes[m..][..n - m] == bytes[..n];
    Chunks(c, bytes[..m], bytes[m..][..n - m]);
  }

  /** A result after what has been read already. */
  function After(done: seq<Field>, r: Result<(seq<Field>, seq<byte>), ReadError>): Result<(seq<Field>, seq<byte>), ReadError> {
    match r
    case Err(e) => Err(e)
    case Ok((more, rest)) => Ok((done + more, rest))
  }

  function CodeAfter(done: seq<Op>, r: Result<seq<Op>, ReadError>): Result<seq<Op>, ReadError> {
    match r
    case Err(e) => Err(e)
    case Ok(more) => Ok(done + more)
  }

  lemma {:induction false} AfterNothing(r: Result<(seq<Field>, seq<byte>), ReadError>)
    ensures After([], r) == r
  {
    assert r.Ok? ==> [] + r.value.0 == r.value.0;
  }

  lemma {:induction false} AfterOne(done: seq<Field>, f: Field, r: Result<(seq<Field>, seq<byte>), ReadError>)
    ensures After(done, After([f], r)) == After(done + [f], r)
  {
    assert r.Ok? ==> done + ([f] + r.value.0) == done + [f] + r.value.0;
  }

  lemma {:induction false} CodeAfterNothing(r: Result<seq<Op>, ReadError>)
    ensures CodeAfter([], r) == r
  {
    assert r.Ok? ==> [] + r.value == r.value;
  }

  lemma {:induction false} CodeAfterOne(done: seq<Op>, o: Op, r: Result<seq<Op>, ReadError>)
    ensures CodeAfter(done, CodeAfter([o], r)) == CodeAfter(done + [o], r)
  {
    assert r.Ok? ==> done + ([o] + r.value) == done + [o] + r.value;
  }

  lemma {:induction false} AfterAll(done: seq<Field>, bytes: seq<byte>)
    ensures After(done, TakeFields([], bytes)) == Ok((done, bytes))
  {
    assert done + [] == done;
  }

  lemma {:induction false} AfterError(done: seq<Field>, e: ReadError)
    ensures After(done, Err(e)) == Err(e)
  {}

  lemma {:induction false} FirstTaken(ks: seq<Shape>, bytes: seq<byte>)
    requires ks != []
    ensures TakeFields(ks, bytes) == match TakeField(ks[0], bytes)
                                     case Err(e) => Err(e)
                                     case Ok((f, rest)) => After([f], TakeFields(ks[1..], rest))
  {}

  lemma {:induction false} NoneDecoded(bytes: seq<byte>)
    ensures bytes == [] ==> Decode(bytes) == Ok([])
  {}

  lemma {:induction false} LengthBound(b: seq<byte>)
    requires |b| == 4
    ensures LengthOf(b) < 0x1_0000_0000
  {}
}
