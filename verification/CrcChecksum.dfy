/** The 16-bit checksum that protects the non-volatile store: the table-driven byte loop of
    the program, the shift register it implements (reflected polynomial 0xA001, initial value
    0, least significant bit of each byte first), and the errors that register detects. */
module CrcChecksum {

  type Bits = seq<bool>

  // ---------------------------------------------------------------- the reference register

  function Bit(b: bool): bv16 { if b then 1 else 0 }

  /** Bit-wise addition. */
  function Plus(r: bv16, q: bv16): bv16 { r ^ q }

  /** One clock of the register. */
  function Clock(r: bv16): bv16 {
    if r & 1 == 1 then (r >> 1) ^ 0xA001 else r >> 1
  }

  /** The register after shifting in `bits`, one at a time. */
  function Lfsr(r: bv16, bits: Bits): bv16
    decreases |bits|
  {
    if bits == [] then r else Lfsr(Clock(Plus(r, Bit(bits[0]))), bits[1..])
  }

  predicate Odd(r: bv16) { r & 1 == 1 }

  function Half(r: bv16): bv16 { r >> 1 }

  /** Bit `i` of a word, 0 the least significant. */
  predicate Cell(r: bv16, i: nat)
    decreases i
  {
    if i == 0 then Odd(r) else Cell(Half(r), i - 1)
  }

  function Word(b: bv8): bv16 { b as bv16 }

  function ByteBits(b: bv8): (s: Bits)
    ensures |s| == 8
  {
    seq(8, i requires 0 <= i < 8 => Cell(Word(b), i))
  }

  /** The bits of a message in transmission order. */
  function BitsOf(msg: seq<bv8>): Bits {
    if msg == [] then [] else ByteBits(msg[0]) + BitsOf(msg[1..])
  }

  /** The checksum, bit at a time. */
  function Crc(msg: seq<bv8>): bv16 { Lfsr(0, BitsOf(msg)) }

  // ---------------------------------------------------------------- the program's table loop

  function RowEntry(j: bv8, e0: bv16, e1: bv16, e2: bv16, e3: bv16,
                    e4: bv16, e5: bv16, e6: bv16, e7: bv16): bv16
  {
    match j
    case 0 => e0 case 1 => e1 case 2 => e2 case 3 => e3
    case 4 => e4 case 5 => e5 case 6 => e6 case _ => e7
  }

  /** The constant lookup table, eight entries a row. */
  function CrcTab(b: bv8): bv16 {
    match b >> 3
    case 0x00 => RowEntry(b & 7, 0x0000, 0xc0c1, 0xc181, 0x0140, 0xc301, 0x03c0, 0x0280, 0xc241)
    case 0x01 => RowEntry(b & 7, 0xc601, 0x06c0, 0x0780, 0xc741, 0x0500, 0xc5c1, 0xc481, 0x0440)
    case 0x02 => RowEntry(b & 7, 0xcc01, 0x0cc0, 0x0d80, 0xcd41, 0x0f00, 0xcfc1, 0xce81, 0x0e40)
    case 0x03 => RowEntry(b & 7, 0x0a00, 0xcac1, 0xcb81, 0x0b40, 0xc901, 0x09c0, 0x0880, 0xc841)
    case 0x04 => RowEntry(b & 7, 0xd801, 0x18c0, 0x1980, 0xd941, 0x1b00, 0xdbc1, 0xda81, 0x1a40)
    case 0x05 => RowEntry(b & 7, 0x1e00, 0xdec1, 0xdf81, 0x1f40, 0xdd01, 0x1dc0, 0x1c80, 0xdc41)
    case 0x06 => RowEntry(b & 7, 0x1400, 0xd4c1, 0xd581, 0x1540, 0xd701, 0x17c0, 0x1680, 0xd641)
    case 0x07 => RowEntry(b & 7, 0xd201, 0x12c0, 0x1380, 0xd341, 0x1100, 0xd1c1, 0xd081, 0x1040)
    case 0x08 => RowEntry(b & 7, 0xf001, 0x30c0, 0x3180, 0xf141, 0x3300, 0xf3c1, 0xf281, 0x3240)
    case 0x09 => RowEntry(b & 7, 0x3600, 0xf6c1, 0xf781, 0x3740, 0xf501, 0x35c0, 0x3480, 0xf441)
    case 0x0a => RowEntry(b & 7, 0x3c00, 0xfcc1, 0xfd81, 0x3d40, 0xff01, 0x3fc0, 0x3e80, 0xfe41)
    case 0x0b => RowEntry(b & 7, 0xfa01, 0x3ac0, 0x3b80, 0xfb41, 0x3900, 0xf9c1, 0xf881, 0x3840)
    case 0x0c => RowEntry(b & 7, 0x2800, 0xe8c1, 0xe981, 0x2940, 0xeb01, 0x2bc0, 0x2a80, 0xea41)
    case 0x0d => RowEntry(b & 7, 0xee01, 0x2ec0, 0x2f80, 0xef41, 0x2d00, 0xedc1, 0xec81, 0x2c40)
    case 0x0e => RowEntry(b & 7, 0xe401, 0x24c0, 0x2580, 0xe541, 0x2700, 0xe7c1, 0xe681, 0x2640)
    case 0x0f => RowEntry(b & 7, 0x2200, 0xe2c1, 0xe381, 0x2340, 0xe101, 0x21c0, 0x2080, 0xe041)
    case 0x10 => RowEntry(b & 7, 0xa001, 0x60c0, 0x6180, 0xa141, 0x6300, 0xa3c1, 0xa281, 0x6240)
    case 0x11 => RowEntry(b & 7, 0x6600, 0xa6c1, 0xa781, 0x6740, 0xa501, 0x65c0, 0x6480, 0xa441)
    case 0x12 => RowEntry(b & 7, 0x6c00, 0xacc1, 0xad81, 0x6d40, 0xaf01, 0x6fc0, 0x6e80, 0xae41)
    case 0x13 => RowEntry(b & 7, 0xaa01, 0x6ac0, 0x6b80, 0xab41, 0x6900, 0xa9c1, 0xa881, 0x6840)
    case 0x14 => RowEntry(b & 7, 0x7800, 0xb8c1, 0xb981, 0x7940, 0xbb01, 0x7bc0, 0x7a80, 0xba41)
    case 0x15 => RowEntry(b & 7, 0xbe01, 0x7ec0, 0x7f80, 0xbf41, 0x7d00, 0xbdc1, 0xbc81, 0x7c40)
    case 0x16 => RowEntry(b & 7, 0xb401, 0x74c0, 0x7580, 0xb541, 0x7700, 0xb7c1, 0xb681, 0x7640)
    case 0x17 => RowEntry(b & 7, 0x7200, 0xb2c1, 0xb381, 0x7340, 0xb101, 0x71c0, 0x7080, 0xb041)
    case 0x18 => RowEntry(b & 7, 0x5000, 0x90c1, 0x9181, 0x5140, 0x9301, 0x53c0, 0x5280, 0x9241)
    case 0x19 => RowEntry(b & 7, 0x9601, 0x56c0, 0x5780, 0x9741, 0x5500, 0x95c1, 0x9481, 0x5440)
    case 0x1a => RowEntry(b & 7, 0x9c01, 0x5cc0, 0x5d80, 0x9d41, 0x5f00, 0x9fc1, 0x9e81, 0x5e40)
    case 0x1b => RowEntry(b & 7, 0x5a00, 0x9ac1, 0x9b81, 0x5b40, 0x9901, 0x59c0, 0x5880, 0x9841)
    case 0x1c => RowEntry(b & 7, 0x8801, 0x48c0, 0x4980, 0x8941, 0x4b00, 0x8bc1, 0x8a81, 0x4a40)
    case 0x1d => RowEntry(b & 7, 0x4e00, 0x8ec1, 0x8f81, 0x4f40, 0x8d01, 0x4dc0, 0x4c80, 0x8c41)
    case 0x1e => RowEntry(b & 7, 0x4400, 0x84c1, 0x8581, 0x4540, 0x8701, 0x47c0, 0x4680, 0x8641)
    case _ => RowEntry(b & 7, 0x8201, 0x42c0, 0x4380, 0x8341, 0x4100, 0x81c1, 0x8081, 0x4040)
  }

  function TableStep(crc: bv16, b: bv8): bv16 {
    ((crc >> 8) & 0xff) ^ CrcTab(((crc & 0xff) as bv8) ^ b)
  }

  /** The table-driven loop computes the bit-at-a-time checksum of the buffer's first `bufferLen` bytes. */
  method Compute(buffer: array<bv8>, bufferLen: nat) returns (crc: bv16)
    requires bufferLen <= buffer.Length
    ensures crc == Crc(buffer[..bufferLen])
  {
    hide TableStep, Lfsr, ByteBits;
    crc := 0;
    var cp, cnt := 0, bufferLen;
    LfsrEmpty(0);
    while cnt != 0
      invariant cp + cnt == bufferLen
      invariant crc == Crc(buffer[..cp])
    {
      CrcSnoc(buffer[..cp], buffer[cp]);
      assert buffer[..cp] + [buffer[cp]] == buffer[..cp + 1];
      TableStepIsByte(crc, buffer[cp]);
      crc := TableStep(crc, buffer[cp]);
      cp, cnt := cp + 1, cnt - 1;
    }
  }

  lemma LfsrEmpty(r: bv16)
    ensures Lfsr(r, []) == r
  {}

  // ---------------------------------------------------------------- the table

  function Clock8(r: bv16): bv16 { Clock(Clock(Clock(Clock(Clock(Clock(Clock(Clock(r)))))))) }

  lemma TableLowHalf(b: bv8)
    requires b < 0x80
    ensures CrcTab(b) == Clock8(Word(b))
  {}

  lemma TableHighHalf(b: bv8)
    requires b >= 0x80
    ensures CrcTab(b) == Clock8(Word(b))
  {}

  /** Every table entry is its index clocked eight times. */
  lemma TableIsEightClocks(b: bv8)
    ensures CrcTab(b) == Clock8(Word(b))
  {
    hide CrcTab, Clock8;
    if b < 0x80 { TableLowHalf(b); } else { TableHighHalf(b); }
  }

  /** Clocking distributes over addition. */
  lemma ClockLinear(r: bv16, q: bv16)
    ensures Clock(Plus(r, q)) == Plus(Clock(r), Clock(q))
  {
    hide WordBits, Clock, ClockCells, Plus, Xor;
    WordBitsXor(r, q);
    WordBitsClock(r);
    WordBitsClock(q);
    WordBitsClock(Plus(r, q));
    ClockCellsLinear(WordBits(r), WordBits(q));
    WordBitsXor(Clock(r), Clock(q));
    WordBitsInjective(Clock(Plus(r, q)), Plus(Clock(r), Clock(q)));
  }

  lemma ClockCellsLinear(w: Cells, x: Cells)
    ensures ClockCells(Xor(w, x)) == Xor(ClockCells(w), ClockCells(x))
  {}

  lemma Clock8Linear(r: bv16, q: bv16)
    ensures Clock8(Plus(r, q)) == Plus(Clock8(r), Clock8(q))
  {
    hide Clock, Plus;
    var r1, q1 := Clock(r), Clock(q); ClockLinear(r, q);
    var r2, q2 := Clock(r1), Clock(q1); ClockLinear(r1, q1);
    var r3, q3 := Clock(r2), Clock(q2); ClockLinear(r2, q2);
    var r4, q4 := Clock(r3), Clock(q3); ClockLinear(r3, q3);
    var r5, q5 := Clock(r4), Clock(q4); ClockLinear(r4, q4);
    var r6, q6 := Clock(r5), Clock(q5); ClockLinear(r5, q5);
    var r7, q7 := Clock(r6), Clock(q6); ClockLinear(r6, q6);
    ClockLinear(r7, q7);
  }

  lemma ClockEven(r: bv16)
    requires r & 1 == 0
    ensures Clock(r) == r >> 1
  {}

  /** A word whose low byte is zero is merely moved by eight clocks. */
  lemma Clock8High(c: bv16)
    ensures Clock8(c & 0xff00) == c >> 8
  {
    hide Clock;
    ClockEven(c & 0xff00);
    ClockEven((c & 0xff00) >> 1);
    ClockEven((c & 0xff00) >> 1 >> 1);
    ClockEven((c & 0xff00) >> 1 >> 1 >> 1);
    ClockEven((c & 0xff00) >> 1 >> 1 >> 1 >> 1);
    ClockEven((c & 0xff00) >> 1 >> 1 >> 1 >> 1 >> 1);
    ClockEven((c & 0xff00) >> 1 >> 1 >> 1 >> 1 >> 1 >> 1);
    ClockEven((c & 0xff00) >> 1 >> 1 >> 1 >> 1 >> 1 >> 1 >> 1);
  }

  lemma PlusAssociative(r: bv16, q: bv16, w: bv16)
    ensures Plus(Plus(r, q), w) == Plus(r, Plus(q, w))
  {}

  lemma TwoHalves(c: bv16)
    ensures c == Plus(c & 0xff00, c & 0xff)
  {}

  lemma SplitByte(c: bv16, b: bv8)
    ensures Clock8(Plus(c, Word(b))) == Plus(c >> 8, Clock8(Plus(c & 0xff, Word(b))))
  {
    hide Clock8, Plus, Word;
    TwoHalves(c);
    PlusAssociative(c & 0xff00, c & 0xff, Word(b));
    Clock8Linear(c & 0xff00, Plus(c & 0xff, Word(b)));
    Clock8High(c);
  }

  lemma Narrow(c: bv16, b: bv8)
    ensures Word(((c & 0xff) as bv8) ^ b) == Plus(c & 0xff, Word(b))
    ensures (c >> 8) & 0xff == c >> 8
  {}

  /** One table step shifts in the eight bits of one byte. */
  lemma TableStepIsByte(c: bv16, b: bv8)
    ensures Lfsr(c, ByteBits(b)) == TableStep(c, b)
  {
    hide Lfsr, ByteBits, CrcTab, Clock8, Word;
    ByteStep(c, b);
    SplitByte(c, b);
    Narrow(c, b);
    TableIsEightClocks(((c & 0xff) as bv8) ^ b);
  }

  // ---------------------------------------------------------------- the register as sixteen cells

  /** The register cell by cell, least significant first. */
  type Cells = w: Bits | |w| == 16 witness seq(16, i => false)

  const ZERO: Cells := seq(16, i => false)

  const POLY: Cells := [true, false, false, false, false, false, false, false,
                        false, false, false, false, false, true, false, true]

  function Xor(a: Bits, b: Bits): (c: Bits)
    requires |a| == |b|
    ensures |c| == |a|
  {
    seq(|a|, i requires 0 <= i < |a| => a[i] != b[i])
  }

  function ClockCells(w: Cells): Cells {
    if w[0] then Xor(w[1..] + [false], POLY) else w[1..] + [false]
  }

  /** Shifting bits into the cells. */
  function Shift(w: Cells, bits: Bits): Cells
    decreases |bits|
  {
    if bits == [] then w else Shift(ClockCells(w[0 := w[0] != bits[0]]), bits[1..])
  }

  function ClockCellsN(w: Cells, n: nat): Cells
    decreases n
  {
    if n == 0 then w else ClockCellsN(ClockCells(w), n - 1)
  }

  function WordBits(r: bv16): Cells {
    seq(16, i requires 0 <= i < 16 => Cell(r, i))
  }

  function LowByte(r: bv16): bv8 { (r & 0xff) as bv8 }

  function HighByte(r: bv16): bv8 { (r >> 8) as bv8 }

  /** `r` has at most `k` significant bits. */
  predicate Fits(r: bv16, k: nat)
    decreases k
  {
    if k == 0 then r == 0 else Fits(Half(r), k - 1)
  }

  lemma WordFits(r: bv16)
    ensures Fits(r, 16)
  {
    hide Half;
    var r4 := Half(Half(Half(Half(r))));
    var r8 := Half(Half(Half(Half(r4))));
    var r12 := Half(Half(Half(Half(r8))));
    assert Fits(r, 16) == Fits(r4, 12) && Fits(r4, 12) == Fits(r8, 8) && Fits(r8, 8) == Fits(r12, 4);
    Half4(r); Half4(r4); Half4(r8); Half4(r12);
    Gone(r);
  }

  lemma Half4(r: bv16)
    ensures Half(Half(Half(Half(r)))) == r >> 4
  {}

  lemma Gone(r: bv16)
    ensures r >> 4 >> 4 >> 4 >> 4 == 0
  {}

  lemma SameHalves(r: bv16, q: bv16)
    requires Odd(r) == Odd(q) && Half(r) == Half(q)
    ensures r == q
  {}

  lemma {:induction false} SameCells(r: bv16, q: bv16, k: nat)
    requires Fits(r, k) && Fits(q, k)
    requires forall i {:trigger Cell(r, i)} :: 0 <= i < k ==> Cell(r, i) == Cell(q, i)
    ensures r == q
    decreases k
  {
    hide Half, Odd;
    if k > 0 {
      assert Cell(r, 0) == Cell(q, 0);
      var r', q' := Half(r), Half(q);
      forall i | 0 <= i < k - 1 ensures Cell(r', i) == Cell(q', i) {
        assert Cell(r, i + 1) == Cell(q, i + 1);
      }
      SameCells(r', q', k - 1);
      SameHalves(r, q);
    }
  }

  lemma HalfZero()
    ensures Half(0) == 0 && !Odd(0)
  {}

  lemma {:induction false} HighCell(r: bv16, k: nat, i: nat)
    requires Fits(r, k) && k <= i
    ensures !Cell(r, i)
    decreases i
  {
    hide Half, Odd;
    HalfZero();
    if i > 0 { HighCell(Half(r), if k == 0 then 0 else k - 1, i - 1); }
  }

  lemma WordBitsInjective(r: bv16, q: bv16)
    requires WordBits(r) == WordBits(q)
    ensures r == q
  {
    hide Cell, Word, Plus;
    forall i | 0 <= i < 16 ensures Cell(r, i) == Cell(q, i) {
      assert WordBits(r)[i] == WordBits(q)[i];
    }
    WordFits(r);
    WordFits(q);
    SameCells(r, q, 16);
  }

  lemma PolyCell(i: nat)
    requires i < 16
    ensures Cell(0xA001, i) == POLY[i]
  {
    assert Cell(0xA001, 0) && !Cell(0xA001, 1) && !Cell(0xA001, 2) && !Cell(0xA001, 3);
    assert !Cell(0xA00, 0) && !Cell(0xA00, 1) && !Cell(0xA00, 2) && !Cell(0xA00, 3);
    assert !Cell(0xA0, 0) && !Cell(0xA0, 1) && !Cell(0xA0, 2) && !Cell(0xA0, 3);
    assert !Cell(0xA, 0) && Cell(0xA, 1) && !Cell(0xA, 2) && Cell(0xA, 3);
    if i >= 4 { CellDown4(0xA001, i - 4); }
    if i >= 8 { CellDown4(0xA00, i - 8); }
    if i >= 12 { CellDown4(0xA0, i - 12); }
  }

  lemma ClockPlus(r: bv16)
    ensures Clock(r) == if Odd(r) then Plus(Half(r), 0xA001) else Half(r)
  {}

  lemma ClockCell(r: bv16, i: nat)
    requires i < 16
    ensures Cell(Clock(r), i) == ((i < 15 && Cell(r, i + 1)) != (Cell(r, 0) && POLY[i]))
  {
    hide Plus, Clock, Half, Odd;
    ClockPlus(r);
    XorCell(Half(r), 0xA001, i);
    PolyCell(i);
    WordFits(r);
    HighCell(Half(r), 15, 15);
  }

  lemma WordBitsClock(r: bv16)
    ensures WordBits(Clock(r)) == ClockCells(WordBits(r))
  {
    hide Cell, Clock;
    forall i | 0 <= i < 16 ensures WordBits(Clock(r))[i] == ClockCells(WordBits(r))[i] {
      ClockCell(r, i);
    }
  }

  lemma HalfPlus(r: bv16, q: bv16)
    ensures Half(Plus(r, q)) == Plus(Half(r), Half(q))
    ensures Odd(Plus(r, q)) == (Odd(r) != Odd(q))
  {}

  lemma {:induction false} XorCell(r: bv16, q: bv16, i: nat)
    ensures Cell(Plus(r, q), i) == (Cell(r, i) != Cell(q, i))
    decreases i
  {
    hide Plus, Half, Odd;
    HalfPlus(r, q);
    if i > 0 { XorCell(Half(r), Half(q), i - 1); }
  }

  lemma WordBitsXor(r: bv16, q: bv16)
    ensures WordBits(Plus(r, q)) == Xor(WordBits(r), WordBits(q))
  {
    hide Cell, Word, Plus;
    forall i | 0 <= i < 16 ensures WordBits(Plus(r, q))[i] == Xor(WordBits(r), WordBits(q))[i] {
      XorCell(r, q, i);
    }
  }

  lemma BitCell(b: bool, i: nat)
    ensures Cell(Bit(b), i) == (b && i == 0)
  {
    if i > 0 { HighCell(Half(Bit(b)), 0, i - 1); }
  }

  lemma WordBitsIn(r: bv16, b: bool)
    ensures WordBits(Plus(r, Bit(b))) == WordBits(r)[0 := WordBits(r)[0] != b]
  {
    hide Cell, Bit, Plus;
    WordBitsXor(r, Bit(b));
    forall i | 0 <= i < 16 ensures WordBits(Bit(b))[i] == (b && i == 0) {
      BitCell(b, i);
    }
  }

  /** The word register and the cell register stay equal. */
  lemma {:induction false} LfsrCells(r: bv16, bits: Bits)
    ensures WordBits(Lfsr(r, bits)) == Shift(WordBits(r), bits)
    decreases |bits|
  {
    hide Clock, WordBits, ClockCells, Bit, Plus;
    if bits != [] {
      WordBitsIn(r, bits[0]);
      WordBitsClock(Plus(r, Bit(bits[0])));
      LfsrCells(Clock(Plus(r, Bit(bits[0]))), bits[1..]);
    }
  }

  lemma ZeroCells()
    ensures WordBits(0) == ZERO
  {
    forall i | 0 <= i < 16 ensures !WordBits(0)[i] { HighCell(0, 0, i); }
  }

  lemma CrcCells(msg: seq<bv8>)
    ensures WordBits(Crc(msg)) == Shift(ZERO, BitsOf(msg))
  {
    hide WordBits;
    LfsrCells(0, BitsOf(msg));
    ZeroCells();
  }

  // ---------------------------------------------------------------- the register is a bijection

  lemma ClockCellsInjective(w: Cells, x: Cells)
    requires ClockCells(w) == ClockCells(x)
    ensures w == x
  {
    assert ClockCells(w)[15] == w[0] && ClockCells(x)[15] == x[0];
    forall i | 1 <= i < 16 ensures w[i] == x[i] {
      assert ClockCells(w)[i - 1] == (w[i] != (w[0] && POLY[i - 1]));
      assert ClockCells(x)[i - 1] == (x[i] != (x[0] && POLY[i - 1]));
    }
  }

  lemma {:induction false} ClockCellsNInjective(w: Cells, x: Cells, n: nat)
    requires ClockCellsN(w, n) == ClockCellsN(x, n)
    ensures w == x
    decreases n
  {
    if n > 0 {
      ClockCellsNInjective(ClockCells(w), ClockCells(x), n - 1);
      ClockCellsInjective(w, x);
    }
  }

  /** Shifting the same bits into different registers leaves them different. */
  lemma {:induction false} ShiftInjective(w: Cells, x: Cells, bits: Bits)
    requires Shift(w, bits) == Shift(x, bits)
    ensures w == x
    decreases |bits|
  {
    if bits != [] {
      var w', x' := w[0 := w[0] != bits[0]], x[0 := x[0] != bits[0]];
      ShiftInjective(ClockCells(w'), ClockCells(x'), bits[1..]);
      ClockCellsInjective(w', x');
      assert forall i :: 0 <= i < 16 ==> (w'[i] == x'[i] ==> w[i] == x[i]);
    }
  }

  lemma {:induction false} ShiftAppend(w: Cells, u: Bits, v: Bits)
    ensures Shift(w, u + v) == Shift(Shift(w, u), v)
    decreases |u|
  {
    if u == [] {
      assert u + v == v;
    } else {
      assert (u + v)[1..] == u[1..] + v;
      ShiftAppend(ClockCells(w[0 := w[0] != u[0]]), u[1..], v);
    }
  }

  /** The cells with up to sixteen bits added in place. */
  function Load(w: Cells, bits: Bits): Cells
    requires |bits| <= 16
  {
    seq(16, i requires 0 <= i < 16 => if i < |bits| then w[i] != bits[i] else w[i])
  }

  lemma LoadClock(w: Cells, bits: Bits)
    requires 0 < |bits| <= 16
    ensures ClockCells(Load(w, bits)) == Load(ClockCells(w[0 := w[0] != bits[0]]), bits[1..])
  {
    assert Load(w, bits)[0] == (w[0] != bits[0]);
  }

  /** Shifting in at most sixteen bits is adding them all at once and then clocking. */
  lemma {:induction false} ShiftIsLoad(w: Cells, bits: Bits)
    requires |bits| <= 16
    ensures Shift(w, bits) == ClockCellsN(Load(w, bits), |bits|)
    decreases |bits|
  {
    if bits == [] {
      assert Load(w, bits) == w;
    } else {
      LoadClock(w, bits);
      ShiftIsLoad(ClockCells(w[0 := w[0] != bits[0]]), bits[1..]);
    }
  }

  lemma ShiftShortInjective(w: Cells, u: Bits, v: Bits)
    requires |u| == |v| <= 16 && Shift(w, u) == Shift(w, v)
    ensures u == v
  {
    ShiftIsLoad(w, u);
    ShiftIsLoad(w, v);
    ClockCellsNInjective(Load(w, u), Load(w, v), |u|);
    forall i | 0 <= i < |u| ensures u[i] == v[i] {
      assert Load(w, u)[i] == Load(w, v)[i];
    }
  }

  lemma HighCellsZero(b: bv8, i: nat)
    requires 8 <= i
    ensures !Cell(Word(b), i)
  {
    hide Half;
    var r := Word(b);
    var r4 := Half(Half(Half(Half(r))));
    assert Fits(r, 8) == Fits(r4, 4);
    Half4(r);
    Half4(r4);
    HighCell(r, 8, i);
  }

  lemma LoadByte(c: bv16, b: bv8)
    ensures Load(WordBits(c), ByteBits(b)) == WordBits(Plus(c, Word(b)))
  {
    hide Cell, Word, Plus;
    forall i | 0 <= i < 16 ensures Load(WordBits(c), ByteBits(b))[i] == WordBits(Plus(c, Word(b)))[i] {
      XorCell(c, Word(b), i);
      if i >= 8 { HighCellsZero(b, i); }
    }
  }

  function And(r: bv16, q: bv16): bv16 { r & q }

  lemma HalfAnd(r: bv16, q: bv16)
    ensures Half(And(r, q)) == And(Half(r), Half(q))
    ensures Odd(And(r, q)) == (Odd(r) && Odd(q))
  {}

  lemma {:induction false} AndCell(r: bv16, q: bv16, i: nat)
    ensures Cell(And(r, q), i) == (Cell(r, i) && Cell(q, i))
    decreases i
  {
    hide And, Half, Odd;
    HalfAnd(r, q);
    if i > 0 { AndCell(Half(r), Half(q), i - 1); }
  }

  lemma SplitWord(c: bv16)
    ensures Word(LowByte(c)) == And(c, 0xff)
    ensures Word(HighByte(c)) == c >> 8
    ensures c >> 4 >> 4 == c >> 8
  {}

  lemma SplitCell(c: bv16, i: nat)
    requires i < 8
    ensures Cell(c, i) == Cell(Word(LowByte(c)), i)
    ensures Cell(c, i + 8) == Cell(Word(HighByte(c)), i)
  {
    hide Word, LowByte, HighByte, And;
    SplitWord(c);
    AndCell(c, 0xff, i);
    assert Cell(0xff, 0) && Cell(0xff, 1) && Cell(0xff, 2) && Cell(0xff, 3);
    assert Cell(0xff, 4) && Cell(0xff, 5) && Cell(0xff, 6) && Cell(0xff, 7);
    CellDown4(c, i + 4);
    CellDown4(c >> 4, i);
  }

  lemma CellDown4(c: bv16, i: nat)
    ensures Cell(c, i + 4) == Cell(c >> 4, i)
  {
    hide Half, Odd;
    Half4(c);
    assert Cell(Half(c), i + 3) == Cell(Half(Half(c)), i + 2);
    assert Cell(Half(Half(c)), i + 2) == Cell(Half(Half(Half(c))), i + 1);
  }

  lemma WordIsTwoBytes(c: bv16)
    ensures WordBits(c) == ByteBits(LowByte(c)) + ByteBits(HighByte(c))
  {
    hide Cell, LowByte, HighByte;
    forall i | 0 <= i < 16 ensures WordBits(c)[i] == (ByteBits(LowByte(c)) + ByteBits(HighByte(c)))[i] {
      SplitCell(c, i % 8);
    }
  }

  lemma ByteStep(c: bv16, b: bv8)
    ensures Lfsr(c, ByteBits(b)) == Clock8(Plus(c, Word(b)))
  {
    hide WordBits, ByteBits, Lfsr, Shift, Clock, ClockCells, Load, Word, Plus;
    LfsrCells(c, ByteBits(b));
    ShiftIsLoad(WordBits(c), ByteBits(b));
    LoadByte(c, b);
    Clock8Cells(Plus(c, Word(b)));
    WordBitsInjective(Lfsr(c, ByteBits(b)), Clock8(Plus(c, Word(b))));
  }

  lemma Clock8Cells(r: bv16)
    ensures WordBits(Clock8(r)) == ClockCellsN(WordBits(r), 8)
  {
    hide WordBits, Clock, ClockCells;
    var r1 := Clock(r); WordBitsClock(r);
    var r2 := Clock(r1); WordBitsClock(r1);
    var r3 := Clock(r2); WordBitsClock(r2);
    var r4 := Clock(r3); WordBitsClock(r3);
    var r5 := Clock(r4); WordBitsClock(r4);
    var r6 := Clock(r5); WordBitsClock(r5);
    var r7 := Clock(r6); WordBitsClock(r6);
    WordBitsClock(r7);
    assert ClockCellsN(WordBits(r), 8) == ClockCellsN(WordBits(r4), 4);
  }

  // ---------------------------------------------------------------- messages

  lemma {:induction false} BitsOfAppend(a: seq<bv8>, b: seq<bv8>)
    ensures BitsOf(a + b) == BitsOf(a) + BitsOf(b)
  {
    hide ByteBits;
    if a == [] {
      assert a + b == b;
    } else {
      assert (a + b)[1..] == a[1..] + b;
      BitsOfAppend(a[1..], b);
    }
  }

  lemma CrcSnoc(msg: seq<bv8>, b: bv8)
    ensures Crc(msg + [b]) == Lfsr(Crc(msg), ByteBits(b))
  {
    hide WordBits, ByteBits, Lfsr, Shift;
    BitsOfAppend(msg, [b]);
    assert BitsOf([b]) == ByteBits(b);
    CrcCells(msg);
    CrcCells(msg + [b]);
    ShiftAppend(ZERO, BitsOf(msg), ByteBits(b));
    LfsrCells(Crc(msg), ByteBits(b));
    WordBitsInjective(Crc(msg + [b]), Lfsr(Crc(msg), ByteBits(b)));
  }

  lemma ByteBitsInjective(a: bv8, b: bv8)
    requires ByteBits(a) == ByteBits(b)
    ensures a == b
  {
    hide Cell, Word, Plus;
    var r, q := Word(a), Word(b);
    forall i | 0 <= i < 16 ensures Cell(r, i) == Cell(q, i) {
      if i < 8 {
        assert ByteBits(a)[i] == ByteBits(b)[i];
      } else {
        HighCellsZero(a, i);
        HighCellsZero(b, i);
      }
    }
    WordFits(r);
    WordFits(q);
    SameCells(r, q, 16);
    Widen(a, b);
  }

  lemma Widen(a: bv8, b: bv8)
    ensures Word(a) == Word(b) ==> a == b
    ensures Word(a ^ b) == Plus(Word(a), Word(b))
  {}

  lemma {:induction false} BitsOfInjective(a: seq<bv8>, b: seq<bv8>)
    requires |a| == |b| && BitsOf(a) == BitsOf(b)
    ensures a == b
  {
    hide ByteBits;
    if a != [] {
      assert ByteBits(a[0]) == BitsOf(a)[..8] && ByteBits(b[0]) == BitsOf(b)[..8];
      assert BitsOf(a[1..]) == BitsOf(a)[8..] && BitsOf(b[1..]) == BitsOf(b)[8..];
      ByteBitsInjective(a[0], b[0]);
      BitsOfInjective(a[1..], b[1..]);
    }
  }

  /** The two bit strings agree outside the `width` bits that start at `k`. */
  ghost predicate DifferOnlyIn(u: Bits, v: Bits, k: nat, width: nat) {
    |u| == |v| && forall i :: 0 <= i < |u| && !(k <= i < k + width) ==> u[i] == v[i]
  }

  lemma ShiftBurst(w: Cells, u: Bits, v: Bits, k: nat)
    requires DifferOnlyIn(u, v, k, 16) && u != v
    ensures Shift(w, u) != Shift(w, v)
  {
    hide Shift;
    var lo := if k < |u| then k else |u|;
    var hi := if k + 16 < |u| then k + 16 else |u|;
    var x := Shift(w, u[..lo]);
    assert u[..lo] == v[..lo] && u[hi..] == v[hi..];
    assert u == u[..lo] + (u[lo..hi] + u[hi..]) && v == v[..lo] + (v[lo..hi] + v[hi..]);
    ShiftAppend(w, u[..lo], u[lo..hi] + u[hi..]);
    ShiftAppend(w, v[..lo], v[lo..hi] + v[hi..]);
    ShiftAppend(x, u[lo..hi], u[hi..]);
    ShiftAppend(x, v[lo..hi], v[hi..]);
    if Shift(w, u) == Shift(w, v) {
      ShiftInjective(Shift(x, u[lo..hi]), Shift(x, v[lo..hi]), u[hi..]);
      ShiftShortInjective(x, u[lo..hi], v[lo..hi]);
    }
  }

  /** Every error burst of at most sixteen consecutive bits changes the checksum. */
  lemma BurstDetected(a: seq<bv8>, b: seq<bv8>, k: nat)
    requires |a| == |b| && a != b
    requires DifferOnlyIn(BitsOf(a), BitsOf(b), k, 16)
    ensures Crc(a) != Crc(b)
  {
    hide BitsOf, Shift, Lfsr, WordBits, Plus;
    if BitsOf(a) == BitsOf(b) { BitsOfInjective(a, b); }
    CrcCells(a);
    CrcCells(b);
    ShiftBurst(ZERO, BitsOf(a), BitsOf(b), k);
  }

  // ---------------------------------------------------------------- linearity

  function XorBytes(a: seq<bv8>, b: seq<bv8>): (c: seq<bv8>)
    requires |a| == |b|
    ensures |c| == |a|
  {
    seq(|a|, i requires 0 <= i < |a| => a[i] ^ b[i])
  }

  lemma {:induction false} ShiftLinear(w: Cells, x: Cells, u: Bits, v: Bits)
    requires |u| == |v|
    ensures Shift(Xor(w, x), Xor(u, v)) == Xor(Shift(w, u), Shift(x, v))
    decreases |u|
  {
    if u != [] {
      var w', x' := w[0 := w[0] != u[0]], x[0 := x[0] != v[0]];
      assert Xor(w, x)[0 := Xor(w, x)[0] != Xor(u, v)[0]] == Xor(w', x');
      assert Xor(u, v)[1..] == Xor(u[1..], v[1..]);
      ClockCellsLinear(w', x');
      ShiftLinear(ClockCells(w'), ClockCells(x'), u[1..], v[1..]);
    }
  }

  lemma ByteBitsXor(x: bv8, y: bv8)
    ensures ByteBits(x ^ y) == Xor(ByteBits(x), ByteBits(y))
  {
    hide Cell, Word, Plus;
    Widen(x, y);
    forall i | 0 <= i < 8 ensures ByteBits(x ^ y)[i] == Xor(ByteBits(x), ByteBits(y))[i] {
      XorCell(Word(x), Word(y), i);
    }
  }

  lemma XorAppend(u: Bits, v: Bits, x: Bits, y: Bits)
    requires |u| == |v| && |x| == |y|
    ensures Xor(u + x, v + y) == Xor(u, v) + Xor(x, y)
  {}

  lemma {:induction false} BitsOfXor(a: seq<bv8>, b: seq<bv8>)
    requires |a| == |b|
    ensures |BitsOf(a)| == |BitsOf(b)| == 8 * |a|
    ensures BitsOf(XorBytes(a, b)) == Xor(BitsOf(a), BitsOf(b))
  {
    hide ByteBits, Xor;
    if a != [] {
      ByteBitsXor(a[0], b[0]);
      assert XorBytes(a, b)[1..] == XorBytes(a[1..], b[1..]);
      BitsOfXor(a[1..], b[1..]);
      XorAppend(ByteBits(a[0]), ByteBits(b[0]), BitsOf(a[1..]), BitsOf(b[1..]));
    }
  }

  /** The checksum of a byte-wise exclusive-or is the exclusive-or of the checksums. */
  lemma CrcLinear(a: seq<bv8>, b: seq<bv8>)
    requires |a| == |b|
    ensures Crc(XorBytes(a, b)) == Plus(Crc(a), Crc(b))
  {
    hide BitsOf, Shift, Lfsr, WordBits, Plus;
    BitsOfXor(a, b);
    CrcCells(a);
    CrcCells(b);
    CrcCells(XorBytes(a, b));
    assert Xor(ZERO, ZERO) == ZERO;
    ShiftLinear(ZERO, ZERO, BitsOf(a), BitsOf(b));
    WordBitsXor(Crc(a), Crc(b));
    WordBitsInjective(Crc(XorBytes(a, b)), Plus(Crc(a), Crc(b)));
  }

  // ---------------------------------------------------------------- residue

  lemma {:induction false} ZeroStaysZero(n: nat)
    ensures ClockCellsN(ZERO, n) == ZERO
    decreases n
  {
    if n > 0 {
      assert ClockCells(ZERO) == ZERO;
      ZeroStaysZero(n - 1);
    }
  }

  lemma TwoBytes(c: bv16, lo: bv8, hi: bv8)
    ensures BitsOf([lo, hi]) == ByteBits(lo) + ByteBits(hi)
    ensures BitsOf([lo, hi]) == WordBits(c) <==> lo == LowByte(c) && hi == HighByte(c)
  {
    hide ByteBits, WordBits, LowByte, HighByte;
    WordIsTwoBytes(c);
    assert [lo, hi][1..] == [hi] && BitsOf([hi]) == ByteBits(hi) + [];
    if ByteBits(lo) + ByteBits(hi) == WordBits(c) {
      assert (ByteBits(lo) + ByteBits(hi))[..8] == ByteBits(lo) && WordBits(c)[..8] == ByteBits(LowByte(c));
      assert (ByteBits(lo) + ByteBits(hi))[8..] == ByteBits(hi) && WordBits(c)[8..] == ByteBits(HighByte(c));
      ByteBitsInjective(lo, LowByte(c));
      ByteBitsInjective(hi, HighByte(c));
    }
  }

  /** A message followed by two bytes leaves residue 0 exactly when they are its checksum, low byte first. */
  lemma ResidueZeroIffTrailerIsChecksum(msg: seq<bv8>, lo: bv8, hi: bv8)
    ensures Crc(msg + [lo, hi]) == 0 <==> lo == LowByte(Crc(msg)) && hi == HighByte(Crc(msg))
  {
    hide BitsOf, Shift, Lfsr, WordBits, ByteBits, ClockCellsN;
    var w, u := WordBits(Crc(msg)), BitsOf([lo, hi]);
    TwoBytes(Crc(msg), lo, hi);
    BitsOfAppend(msg, [lo, hi]);
    CrcCells(msg);
    CrcCells(msg + [lo, hi]);
    ShiftAppend(ZERO, BitsOf(msg), u);
    ShiftIsLoad(w, u);
    assert Load(w, u) == Xor(w, u);
    ZeroStaysZero(16);
    ZeroCells();
    if Crc(msg + [lo, hi]) == 0 {
      ClockCellsNInjective(Load(w, u), ZERO, 16);
      forall i | 0 <= i < 16 ensures w[i] == u[i] { assert Load(w, u)[i] == ZERO[i]; }
      assert w == u;
    } else if w == u {
      assert Load(w, u) == ZERO;
      WordBitsInjective(Crc(msg + [lo, hi]), 0);
    }
  }

  // ---------------------------------------------------------------- reaching a checksum

  /** The clock run backwards. */
  function Unclock(r: bv16): bv16 {
    if r >= 0x8000 then ((r ^ 0xA001) << 1) | 1 else r << 1
  }

  lemma ClockUnclock(r: bv16)
    ensures Clock(Unclock(r)) == r
  {
    hide Clock;
    if r >= 0x8000 {
      PolyAway(r);
      ClockOdd(r ^ 0xA001);
      assert Clock(((r ^ 0xA001) << 1) | 1) == Plus(r ^ 0xA001, 0xA001);
    } else {
      ClockShifted(r);
    }
  }

  lemma PolyAway(r: bv16)
    requires r >= 0x8000
    ensures r ^ 0xA001 < 0x8000 && Plus(r ^ 0xA001, 0xA001) == r
  {}

  lemma ClockShifted(q: bv16)
    requires q < 0x8000
    ensures Clock(q << 1) == q
  {}

  lemma ClockOdd(q: bv16)
    requires q < 0x8000
    ensures Clock((q << 1) | 1) == Plus(q, 0xA001)
  {}

  lemma UnclockClock(r: bv16)
    ensures Unclock(Clock(r)) == r
  {}

  function Unclock8(r: bv16): bv16 {
    Unclock(Unclock(Unclock(Unclock(Unclock(Unclock(Unclock(Unclock(r))))))))
  }

  lemma Clock8Bijective(r: bv16)
    ensures Clock8(Unclock8(r)) == r && Unclock8(Clock8(r)) == r
  {
    hide Clock, Unclock;
    var u1 := Unclock(r); ClockUnclock(r);
    var u2 := Unclock(u1); ClockUnclock(u1);
    var u3 := Unclock(u2); ClockUnclock(u2);
    var u4 := Unclock(u3); ClockUnclock(u3);
    var u5 := Unclock(u4); ClockUnclock(u4);
    var u6 := Unclock(u5); ClockUnclock(u5);
    var u7 := Unclock(u6); ClockUnclock(u6);
    ClockUnclock(u7);
    var c1 := Clock(r); UnclockClock(r);
    var c2 := Clock(c1); UnclockClock(c1);
    var c3 := Clock(c2); UnclockClock(c2);
    var c4 := Clock(c3); UnclockClock(c3);
    var c5 := Clock(c4); UnclockClock(c4);
    var c6 := Clock(c5); UnclockClock(c5);
    var c7 := Clock(c6); UnclockClock(c6);
    UnclockClock(c7);
  }

  lemma PlusCancels(r: bv16, q: bv16, x: bv16)
    ensures Plus(r, x) == q <==> x == Plus(r, q)
  {
    hide Plus;
    PlusTwice(r, q);
    PlusTwice(r, x);
  }

  lemma PlusTwice(r: bv16, q: bv16)
    ensures Plus(r, Plus(r, q)) == q
  {}

  /** The one byte, if it is a byte, that leads from a message's checksum to a given one. */
  lemma OneByteTailIff(msg: seq<bv8>, target: bv16, b: bv8)
    ensures Crc(msg + [b]) == target <==> Word(b) == Plus(Crc(msg), Unclock8(target))
  {
    hide Crc, Lfsr, ByteBits, Plus, Word, Clock8, Unclock8;
    CrcSnoc(msg, b);
    ByteStep(Crc(msg), b);
    Clock8Bijective(target);
    Clock8Bijective(Plus(Crc(msg), Word(b)));
    PlusCancels(Crc(msg), Unclock8(target), Word(b));
  }

  lemma {:induction false} ClockCellsNSum(w: Cells, m: nat, n: nat)
    ensures ClockCellsN(w, m + n) == ClockCellsN(ClockCellsN(w, m), n)
    decreases m
  {
    if m > 0 { ClockCellsNSum(ClockCells(w), m - 1, n); }
  }

  /** The register content that sixteen clocks turn into `r`. */
  function Unclock16(r: bv16): bv16 { Unclock8(Unclock8(r)) }

  lemma SixteenClocks(r: bv16)
    ensures ClockCellsN(WordBits(Unclock16(r)), 16) == WordBits(r)
  {
    hide WordBits, Clock8, Unclock8, ClockCellsN;
    var y := Unclock8(Unclock8(r));
    Clock8Cells(y);
    Clock8Cells(Clock8(y));
    Clock8Bijective(Unclock8(r));
    Clock8Bijective(r);
    ClockCellsNSum(WordBits(y), 8, 8);
  }

  /** Every checksum is reached from every message by exactly one tail of two bytes. */
  lemma TwoByteTailIff(msg: seq<bv8>, target: bv16, lo: bv8, hi: bv8)
    ensures var x := Plus(Crc(msg), Unclock16(target));
            Crc(msg + [lo, hi]) == target <==> lo == LowByte(x) && hi == HighByte(x)
  {
    hide BitsOf, Shift, Lfsr, WordBits, ByteBits, ClockCellsN, Plus, Unclock16, LowByte, HighByte, Load;
    var c, y := Crc(msg), Unclock16(target);
    var u, x := BitsOf([lo, hi]), Plus(c, y);
    BitsOfTwo(lo, hi);
    BitsOfAppend(msg, [lo, hi]);
    CrcCells(msg);
    CrcCells(msg + [lo, hi]);
    ShiftAppend(ZERO, BitsOf(msg), u);
    ShiftIsLoad(WordBits(c), u);
    LoadAll(WordBits(c), u);
    SixteenClocks(target);
    TwoBytes(x, lo, hi);
    WordBitsXor(c, x);
    PlusCancels(c, y, x);
    if Crc(msg + [lo, hi]) == target {
      ClockCellsNInjective(Load(WordBits(c), u), WordBits(y), 16);
      WordBitsXor(c, y);
      XorCancels(WordBits(c), u, WordBits(y));
    } else if lo == LowByte(x) && hi == HighByte(x) {
      WordBitsInjective(Crc(msg + [lo, hi]), target);
    }
  }

  lemma BitsOfTwo(lo: bv8, hi: bv8)
    ensures |BitsOf([lo, hi])| == 16
  {
    TwoBytes(0, lo, hi);
  }

  lemma LoadAll(w: Cells, u: Bits)
    requires |u| == 16
    ensures Load(w, u) == Xor(w, u)
  {}

  lemma XorCancels(w: Bits, u: Bits, v: Bits)
    requires |w| == |u| == |v| && Xor(w, u) == v
    ensures u == Xor(w, v)
  {
    forall i | 0 <= i < |u| ensures u[i] == Xor(w, v)[i] { assert Xor(w, u)[i] == v[i]; }
  }

  // ---------------------------------------------------------------- parity

  /** Whether an odd number of bits is set. */
  predicate OddBits(bits: Bits) {
    if bits == [] then false else bits[0] != OddBits(bits[1..])
  }

  lemma {:induction false} OddAppend(u: Bits, v: Bits)
    ensures OddBits(u + v) == (OddBits(u) != OddBits(v))
  {
    if u == [] {
      assert u + v == v;
    } else {
      assert (u + v)[1..] == u[1..] + v;
      OddAppend(u[1..], v);
    }
  }

  lemma {:induction false} OddXor(u: Bits, v: Bits)
    requires |u| == |v|
    ensures OddBits(Xor(u, v)) == (OddBits(u) != OddBits(v))
  {
    if u != [] {
      assert Xor(u, v)[1..] == Xor(u[1..], v[1..]);
      OddXor(u[1..], v[1..]);
    }
  }

  lemma OddPoly()
    ensures OddBits(POLY)
  {
    assert POLY == [true] + (seq(12, i => false) + [true, false, true]);
    OddAppend([true], seq(12, i => false) + [true, false, true]);
    OddAppend(seq(12, i => false), [true, false, true]);
    OddFalse(12);
    assert OddBits([true, false, true]) == false;
  }

  lemma OddHead(u: Bits)
    ensures u != [] ==> OddBits(u) == (u[0] != OddBits(u[1..]))
    ensures !OddBits([false])
  {}

  lemma ClockParity(w: Cells)
    ensures OddBits(ClockCells(w)) == OddBits(w)
  {
    hide OddBits, Xor;
    OddHead(w);
    OddAppend(w[1..], [false]);
    OddXor(w[1..] + [false], POLY);
    OddPoly();
  }

  lemma {:induction false} ShiftParity(w: Cells, bits: Bits)
    ensures OddBits(Shift(w, bits)) == (OddBits(w) != OddBits(bits))
    decreases |bits|
  {
    hide ClockCells;
    if bits != [] {
      var w' := w[0 := w[0] != bits[0]];
      assert w'[1..] == w[1..];
      ClockParity(w');
      ShiftParity(ClockCells(w'), bits[1..]);
    }
  }

  lemma {:induction false} OddFalse(n: nat)
    ensures !OddBits(seq(n, i => false))
  {
    if n > 0 {
      assert seq(n, i => false)[1..] == seq(n - 1, i => false);
      OddFalse(n - 1);
    }
  }

  /** The checksum carries the parity of the message. */
  lemma ParityPreserved(msg: seq<bv8>)
    ensures OddBits(WordBits(Crc(msg))) == OddBits(BitsOf(msg))
  {
    hide BitsOf, Shift, Lfsr, WordBits, Plus;
    CrcCells(msg);
    ShiftParity(ZERO, BitsOf(msg));
    OddFalse(16);
  }

  /** The number of positions where two bit strings differ. */
  function Distance(u: Bits, v: Bits): nat
    requires |u| == |v|
  {
    if u == [] then 0 else (if u[0] != v[0] then 1 else 0) + Distance(u[1..], v[1..])
  }

  lemma {:induction false} DistanceParity(u: Bits, v: Bits)
    requires |u| == |v|
    ensures Distance(u, v) % 2 == 1 <==> OddBits(u) != OddBits(v)
  {
    if u != [] { DistanceParity(u[1..], v[1..]); }
  }

  /** Any odd number of flipped message bits changes the checksum. */
  lemma OddErrorDetected(a: seq<bv8>, b: seq<bv8>)
    requires |BitsOf(a)| == |BitsOf(b)| && Distance(BitsOf(a), BitsOf(b)) % 2 == 1
    ensures Crc(a) != Crc(b)
  {
    hide BitsOf, OddBits, Lfsr, WordBits;
    ParityPreserved(a);
    ParityPreserved(b);
    DistanceParity(BitsOf(a), BitsOf(b));
  }
}
