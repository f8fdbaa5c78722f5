/** CRC-32 (section 8 of RFC 1952): the table-driven form computes the bit-at-a-time form. */
module Crc {

  const ONES: bv32 := 0xFFFF_FFFF

  function Xor(x: bv32, y: bv32): bv32 { x ^ y }

  function Half(x: bv32): bv32 { x >> 1 }

  /** One step of the reflected shift register. */
  function Shift(c: bv32): bv32 {
    if c & 1 == 1 then 0xEDB88320 ^ (c >> 1) else c >> 1
  }

  // ---- bit at a time --------------------------------------------------------------------

  /** The register with the lowest bit of a byte entered. */
  function Enter(c: bv32, b: bv8): bv32 { c ^ (b & 1) as bv32 }

  /** The register after the lowest n bits of a byte, least significant bit first. */
  function SerialBits(c: bv32, b: bv8, n: nat): bv32
    decreases n
  {
    if n == 0 then c else SerialBits(Shift(Enter(c, b)), b >> 1, n - 1)
  }

  function SerialBytes(c: bv32, bytes: seq<bv8>): bv32
    decreases bytes
  {
    if bytes == [] then c else SerialBytes(SerialBits(c, bytes[0], 8), bytes[1..])
  }

  function Serial(bytes: seq<bv8>): bv32 { SerialBytes(ONES, bytes) ^ ONES }

  // ---- linearity ------------------------------------------------------------------------

  function ShiftN(c: bv32, n: nat): bv32
    decreases n
  {
    if n == 0 then c else ShiftN(Shift(c), n - 1)
  }

  lemma BothOdd(x: bv32, y: bv32)
    requires x & 1 == 1 && y & 1 == 1
    ensures Shift(x ^ y) == Shift(x) ^ Shift(y)
  {}

  lemma OneOdd(x: bv32, y: bv32)
    requires x & 1 == 1 && y & 1 != 1
    ensures Shift(x ^ y) == Shift(x) ^ Shift(y)
    ensures Shift(y ^ x) == Shift(y) ^ Shift(x)
  {}

  lemma BothEven(x: bv32, y: bv32)
    requires x & 1 != 1 && y & 1 != 1
    ensures Shift(x ^ y) == Shift(x) ^ Shift(y)
  {}

  /** The shift step is linear over exclusive or. */
  lemma ShiftLinear(x: bv32, y: bv32)
    ensures Shift(Xor(x, y)) == Xor(Shift(x), Shift(y))
  {
    hide Shift;
    if x & 1 == 1 {
      if y & 1 == 1 { BothOdd(x, y); } else { OneOdd(x, y); }
    } else if y & 1 == 1 {
      OneOdd(y, x);
    } else {
      BothEven(x, y);
    }
  }

  lemma {:induction false} ShiftNLinear(x: bv32, y: bv32, n: nat)
    ensures ShiftN(Xor(x, y), n) == Xor(ShiftN(x, n), ShiftN(y, n))
    decreases n
  {
    hide Shift, Xor;
    if n > 0 {
      ShiftLinear(x, y);
      ShiftNLinear(Shift(x), Shift(y), n - 1);
    }
  }

  /** The register with a whole byte entered. */
  function EnterByte(c: bv32, b: bv8): bv32 { c ^ b as bv32 }

  /** A byte without its lowest bit. */
  function Rest(b: bv8): bv32 { (b & 0xFE) as bv32 }

  lemma SplitByte(c: bv32, b: bv8)
    ensures EnterByte(c, b) == Xor(Enter(c, b), Rest(b))
    ensures forall x: bv32 :: EnterByte(x, b >> 1) == Xor(x, Half(Rest(b)))
  {}

  lemma ShiftRest(b: bv8)
    ensures Shift(Rest(b)) == Half(Rest(b))
  {}

  /** Entering a bit and shifting is shifting with the whole rest of the byte entered. */
  lemma EnterBit(c: bv32, b: bv8)
    ensures EnterByte(Shift(Enter(c, b)), b >> 1) == Shift(EnterByte(c, b))
  {
    hide *;
    SplitByte(c, b);
    ShiftRest(b);
    ShiftLinear(Enter(c, b), Rest(b));
  }

  predicate Fits(b: bv8, n: nat)
    decreases n
  {
    if n == 0 then b == 0 else Fits(b >> 1, n - 1)
  }

  lemma EightBits(b: bv8)
    ensures Fits(b, 8)
  {
    var b4 := b >> 1 >> 1 >> 1 >> 1;
    assert b4 >> 1 >> 1 >> 1 >> 1 == 0;
    assert Fits(b4 >> 1 >> 1, 2);
    assert Fits(b4, 4);
    assert Fits(b >> 1 >> 1, 6);
  }

  lemma NothingLeft(c: bv32)
    ensures EnterByte(c, 0) == c
  {}

  lemma {:induction false} SerialIsShift(c: bv32, b: bv8, n: nat)
    requires Fits(b, n)
    ensures SerialBits(c, b, n) == ShiftN(EnterByte(c, b), n)
    decreases n
  {
    hide Shift, Enter, EnterByte;
    if n > 0 {
      EnterBit(c, b);
      SerialIsShift(Shift(Enter(c, b)), b >> 1, n - 1);
    } else {
      NothingLeft(c);
    }
  }

  // ---- one byte at a time ---------------------------------------------------------------

  function Low(x: bv32): bv32 { x & 0xFF }

  function High(x: bv32): bv32 { x & 0xFFFF_FF00 }

  /** The register without its lowest byte. */
  function Drop(x: bv32): bv32 { x >> 8 }

  lemma Halves(c: bv32, b: bv8)
    ensures var x := EnterByte(c, b);
            x == Xor(Low(x), High(x)) && Drop(High(x)) == Drop(c)
  {}

  lemma EvenShift(x: bv32)
    ensures Shift(High(x)) == Half(High(x))
    ensures Shift(Half(High(x))) == Half(Half(High(x)))
  {}

  lemma EvenShift2(x: bv32)
    ensures var y := Half(Half(High(x))); Shift(y) == Half(y) && Shift(Half(y)) == Half(Half(y))
  {}

  lemma EvenShift4(x: bv32)
    ensures var y := Half(Half(Half(Half(High(x))))); Shift(y) == Half(y) && Shift(Half(y)) == Half(Half(y))
  {}

  lemma EvenShift6(x: bv32)
    ensures var y := Half(Half(Half(Half(Half(Half(High(x)))))));
            Shift(y) == Half(y) && Shift(Half(y)) == Drop(High(x))
  {}

  lemma HighBits(x: bv32)
    ensures ShiftN(High(x), 8) == Drop(High(x))
  {
    hide Shift, Half, High, Drop;
    EvenShift(x);
    EvenShift2(x);
    EvenShift4(x);
    EvenShift6(x);
    var y2 := Half(Half(High(x)));
    var y4 := Half(Half(y2));
    var y6 := Half(Half(y4));
    assert ShiftN(y6, 2) == Drop(High(x));
    assert ShiftN(y4, 4) == ShiftN(y6, 2);
    assert ShiftN(y2, 6) == ShiftN(y4, 4);
    assert ShiftN(High(x), 8) == ShiftN(y2, 6);
  }

  /** One lookup in the table does the work of eight steps. */
  lemma TableStep(c: bv32, b: bv8)
    ensures Xor(ShiftN(Low(EnterByte(c, b)), 8), Drop(c)) == SerialBits(c, b, 8)
  {
    hide *;
    var x := EnterByte(c, b);
    Halves(c, b);
    EightBits(b);
    SerialIsShift(c, b, 8);
    ShiftNLinear(Low(x), High(x), 8);
    HighBits(x);
  }

  // ---- the code ---------------------------------------------------------------------------

  /** The number of a slot of the table, as the counter of the generating loop. */
  function Slot(i: nat): bv32 { if i == 0 then 0 else Slot(i - 1) + 1 }

  lemma Below(b: bv8)
    requires b != 0
    ensures (b - 1) as int == b as int - 1 && (b - 1) as bv32 + 1 == b as bv32
  {}

  lemma {:induction false} SlotOf(b: bv8)
    ensures Slot(b as int) == b as bv32
    decreases b as int
  {
    if b != 0 {
      Below(b);
      SlotOf(b - 1);
    }
  }

  method ShiftOnce(c: bv32) returns (r: bv32)
    ensures r == Shift(c)
  {
    r := if c & 1 != 0 then 0xEDB88320 ^ (c >> 1) else c >> 1;
  }

  method EightShifts(c: bv32) returns (value: bv32)
    ensures value == ShiftN(c, 8)
  {
    hide Shift;
    value := c;
    for bit := 0 to 8
      invariant ShiftN(value, 8 - bit) == ShiftN(c, 8)
    {
      value := ShiftOnce(value);
    }
  }

  /** The 256 registers that `Crc32` looks up, as it generates them. */
  method GenerateTable() returns (table: array<bv32>)
    ensures fresh(table) && table.Length == 256
    ensures forall k | 0 <= k < 256 :: table[k] == ShiftN(Slot(k), 8)
  {
    hide ShiftN;
    table := new bv32[256];
    var index: bv32 := 0;
    for slot := 0 to 256
      invariant index == Slot(slot)
      invariant forall k | 0 <= k < slot :: table[k] == ShiftN(Slot(k), 8)
    {
      var value := index;
      index := index + 1;
      value := EightShifts(value);
      table[slot] := value;
    }
  }

  /** The slot of the table for a register and a byte. */
  function Index(c: bv32, b: bv8): bv8 { ((c ^ b as bv32) & 0xFF) as bv8 }

  lemma IndexIsLow(c: bv32, b: bv8)
    ensures Index(c, b) as bv32 == Low(EnterByte(c, b))
  {}

  function Combine(entry: bv32, c: bv32): bv32 { entry ^ (c >> 8) }

  lemma CombineIsXor(entry: bv32, c: bv32)
    ensures Combine(entry, c) == Xor(entry, Drop(c))
  {}

  lemma LookUp(c: bv32, b: bv8)
    ensures Combine(ShiftN(Slot(Index(c, b) as int), 8), c) == SerialBits(c, b, 8)
  {
    hide *;
    SlotOf(Index(c, b));
    IndexIsLow(c, b);
    TableStep(c, b);
    CombineIsXor(ShiftN(Slot(Index(c, b) as int), 8), c);
  }

  lemma NoBytes(c: bv32)
    ensures SerialBytes(c, []) == c
  {}

  lemma SerialStep(c: bv32, bytes: seq<bv8>, i: nat)
    requires i < |bytes|
    ensures SerialBytes(c, bytes[i..]) == SerialBytes(SerialBits(c, bytes[i], 8), bytes[i + 1..])
  {
    hide SerialBits;
    assert bytes[i..][1..] == bytes[i + 1..] && bytes[i..][0] == bytes[i];
  }

  /** The table-driven CRC computes the bit-at-a-time CRC of every byte string. */
  method Crc32(bytes: seq<bv8>) returns (crc: bv32)
    ensures crc == Serial(bytes)
  {
    hide ShiftN, SerialBits, SerialBytes, Combine, Index, Slot;
    var table := GenerateTable();
    crc := 0xFFFF_FFFF;
    assert bytes[0..] == bytes;
    for i := 0 to |bytes|
      invariant forall k | 0 <= k < 256 :: table[k] == ShiftN(Slot(k), 8)
      invariant SerialBytes(crc, bytes[i..]) == SerialBytes(ONES, bytes)
    {
      LookUp(crc, bytes[i]);
      SerialStep(crc, bytes, i);
      var index := Index(crc, bytes[i]);
      crc := Combine(table[index as int], crc);
    }
    assert bytes[|bytes|..] == [];
    NoBytes(crc);
    crc := crc ^ 0xFFFF_FFFF;
  }

  // ---- the check value ----------------------------------------------------------------------

  /** The register after a byte, bit by bit. */
  function AfterByte(c: bv32, b: bv8): bv32 {
    var c1 := Shift(Enter(c, b));
    var c2 := Shift(Enter(c1, b >> 1));
    var c3 := Shift(Enter(c2, b >> 2));
    var c4 := Shift(Enter(c3, b >> 3));
    var c5 := Shift(Enter(c4, b >> 4));
    var c6 := Shift(Enter(c5, b >> 5));
    var c7 := Shift(Enter(c6, b >> 6));
    Shift(Enter(c7, b >> 7))
  }

  lemma TwoBits(c: bv32, b: bv8, n: nat)
    requires n >= 2
    ensures SerialBits(c, b, n) == SerialBits(Shift(Enter(Shift(Enter(c, b)), b >> 1)), b >> 2, n - 2)
  {
    assert b >> 1 >> 1 == b >> 2;
  }

  lemma AfterByteIs(c: bv32, b: bv8)
    ensures SerialBits(c, b, 8) == AfterByte(c, b)
  {
    hide Shift, Enter;
    var c2 := Shift(Enter(Shift(Enter(c, b)), b >> 1));
    var c4 := Shift(Enter(Shift(Enter(c2, b >> 2)), b >> 3));
    var c6 := Shift(Enter(Shift(Enter(c4, b >> 4)), b >> 5));
    Shifts(b);
    TwoBits(c, b, 8);
    TwoBits(c2, b >> 2, 6);
    TwoBits(c4, b >> 4, 4);
    TwoBits(c6, b >> 6, 2);
  }

  lemma Shifts(b: bv8)
    ensures b >> 2 >> 1 == b >> 3 && b >> 2 >> 2 == b >> 4 && b >> 4 >> 1 == b >> 5 && b >> 4 >> 2 == b >> 6
    ensures b >> 6 >> 1 == b >> 7
  {}

  lemma Read(c: bv32, b: bv8, rest: seq<bv8>)
    ensures SerialBytes(c, [b] + rest) == SerialBytes(AfterByte(c, b), rest)
  {
    hide AfterByte, SerialBits;
    AfterByteIs(c, b);
    assert ([b] + rest)[1..] == rest;
  }

  lemma CheckRegisters()
    ensures AfterByte(0xFFFFFFFF, 0x31) == 0x7C231048
    ensures AfterByte(0x7C231048, 0x32) == 0xB0ACBB32
    ensures AfterByte(0xB0ACBB32, 0x33) == 0x77B79C2D
    ensures AfterByte(0x77B79C2D, 0x34) == 0x641C1F5C
    ensures AfterByte(0x641C1F5C, 0x35) == 0x340AC5E3
    ensures AfterByte(0x340AC5E3, 0x36) == 0xF68D2C9E
    ensures AfterByte(0xF68D2C9E, 0x37) == 0xAFFC9660
    ensures AfterByte(0xAFFC9660, 0x38) == 0x651F2550
    ensures AfterByte(0x651F2550, 0x39) == 0x340BC6D9
  {}

  const DIGITS: seq<bv8> := [0x31, 0x32, 0x33, 0x34, 0x35, 0x36, 0x37, 0x38, 0x39]

  lemma ReadDigit(c: bv32, k: nat)
    requires k < 9
    ensures SerialBytes(c, DIGITS[k..]) == SerialBytes(AfterByte(c, DIGITS[k]), DIGITS[k + 1..])
  {
    hide AfterByte, SerialBytes;
    Read(c, DIGITS[k], DIGITS[k + 1..]);
    assert DIGITS[k..] == [DIGITS[k]] + DIGITS[k + 1..];
  }

  lemma CheckedDigits()
    ensures SerialBytes(0xFFFF_FFFF, DIGITS[0..]) == SerialBytes(0x340B_C6D9, DIGITS[9..])
  {
    hide AfterByte, SerialBytes, SerialBits;
    CheckRegisters();
    ReadDigit(0xFFFFFFFF, 0);
    ReadDigit(0x7C231048, 1);
    ReadDigit(0xB0ACBB32, 2);
    ReadDigit(0x77B79C2D, 3);
    ReadDigit(0x641C1F5C, 4);
    ReadDigit(0x340AC5E3, 5);
    ReadDigit(0xF68D2C9E, 6);
    ReadDigit(0xAFFC9660, 7);
    ReadDigit(0x651F2550, 8);
  }

  /** The check value of CRC-32: the sum of the digits 1 to 9. */
  lemma CheckValue()
    ensures Serial([0x31, 0x32, 0x33, 0x34, 0x35, 0x36, 0x37, 0x38, 0x39]) == 0xCBF4_3926
  {
    CheckedDigits();
    assert DIGITS[0..] == [0x31, 0x32, 0x33, 0x34, 0x35, 0x36, 0x37, 0x38, 0x39];
    assert DIGITS[9..] == [];
  }
}
