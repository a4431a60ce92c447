/** Go's fixed-width unsigned integers and the wrapping arithmetic the interpreter relies on.
    Values are kept as bounded integers; the bitwise operators are defined bit by bit on them. */
module Bytes {

  /** Go's uint8. */
  newtype byte = b: int | 0 <= b < 0x100

  /** Go's uint16. */
  newtype word = w: int | 0 <= w < 0x1_0000

  /** uint8 addition, wrapping modulo 256. */
  function AddByte(a: byte, b: byte): (r: byte)
    ensures a as int + b as int < 0x100 ==> r as int == a as int + b as int
    ensures a as int + b as int >= 0x100 ==> r as int == a as int + b as int - 0x100
  {
    ((a as int + b as int) % 0x100) as byte
  }

  /** uint8 subtraction, wrapping modulo 256. */
  function SubByte(a: byte, b: byte): (r: byte)
    ensures a >= b ==> r == a - b
    ensures a < b ==> r as int == a as int - b as int + 0x100
  {
    ((a as int - b as int) % 0x100) as byte
  }

  /** 2 to the power n, for the bit positions of a byte and the byte's range 2^8. */
  function Pow2(n: nat): (p: nat)
    requires n <= 8
    ensures p >= 1
  {
    [1, 2, 4, 8, 16, 32, 64, 128, 256][n]
  }

  /** Pow2 starts at 1 and doubles with each step: it is 2^n. */
  lemma Pow2Doubles(n: nat)
    requires n <= 8
    ensures n == 0 ==> Pow2(n) == 1
    ensures n > 0 ==> Pow2(n) == 2 * Pow2(n - 1)
  {
  }

  /** The three bitwise operators the interpreter applies to bytes. */
  datatype BitOp = Or | And | Xor

  /** An operator on a single pair of bits. */
  function Combine(op: BitOp, p: nat, q: nat): (c: nat)
    requires p <= 1 && q <= 1
    ensures c <= 1
  {
    match op
    case Or => if p == 1 || q == 1 then 1 else 0
    case And => if p == 1 && q == 1 then 1 else 0
    case Xor => if p != q then 1 else 0
  }

  /** An operator applied bit by bit to two w-bit numbers, least significant bit first. */
  function Bitwise(op: BitOp, a: nat, b: nat, w: nat): (r: nat)
    requires w <= 8 && a < Pow2(w) && b < Pow2(w)
    ensures r < Pow2(w)
    ensures op == Or ==> a <= r && b <= r
    ensures op == And ==> r <= a && r <= b
    ensures op == Xor ==> (r == 0 <==> a == b)
    ensures op != And && b == 0 ==> r == a
    ensures op != And && a == 0 ==> r == b
    ensures op == And && a == b ==> r == a
    ensures op == And && a + 1 == Pow2(w) ==> r == b
    ensures op == And && b + 1 == Pow2(w) ==> r == a
    ensures op == Xor && a + 1 == Pow2(w) ==> r == a - b
    decreases w
  {
    Pow2Doubles(w);
    if w == 0 then 0
    else Combine(op, a % 2, b % 2) + 2 * Bitwise(op, a / 2, b / 2, w - 1)
  }

  /** uint8 bitwise or: every bit set in either operand. */
  function OrByte(a: byte, b: byte): (r: byte)
    ensures a <= r && b <= r
    ensures a == 0 ==> r == b
    ensures b == 0 ==> r == a
  {
    Bitwise(Or, a as nat, b as nat, 8) as byte
  }

  /** uint8 bitwise and: the bits set in both operands. */
  function AndByte(a: byte, b: byte): (r: byte)
    ensures r <= a && r <= b
    ensures a == b ==> r == a
    ensures a == 0xFF ==> r == b
    ensures b == 0xFF ==> r == a
  {
    Bitwise(And, a as nat, b as nat, 8) as byte
  }

  /** uint8 bitwise exclusive or: the bits set in exactly one operand. */
  function XorByte(a: byte, b: byte): (r: byte)
    ensures r == 0 <==> a == b
    ensures b == 0 ==> r == a
    ensures a == 0xFF ==> r == 0xFF - b
  {
    Bitwise(Xor, a as nat, b as nat, 8) as byte
  }

  /** uint8 shift right by n: the low n bits fall off. */
  function ShrByte(a: byte, n: nat): (r: byte)
    requires n < 8
    ensures r as int * Pow2(n) <= a as int < (r as int + 1) * Pow2(n)
  {
    (a as int / Pow2(n)) as byte
  }

  /** uint8 shift left by one: the top bit falls off. */
  function ShlByte(a: byte): (r: byte)
    ensures a < 0x80 ==> r as int == 2 * a as int
    ensures a >= 0x80 ==> r as int == 2 * a as int - 0x100
  {
    (a as int * 2 % 0x100) as byte
  }

  /** Masking with 0x01 keeps the lowest bit. */
  lemma AndLowBit(a: byte)
    ensures AndByte(a, 0x01) as int == a as int % 2
  {
    assert Bitwise(And, a as nat, 1, 8) == Combine(And, a as nat % 2, 1) + 2 * Bitwise(And, a as nat / 2, 0, 7);
  }

  /** Masking a w-bit number with the weight of its top bit keeps just that bit. */
  lemma {:induction false} AndTopBit(a: nat, w: nat)
    requires 1 <= w <= 8 && a < Pow2(w)
    ensures Bitwise(And, a, Pow2(w - 1), w) == if a >= Pow2(w - 1) then Pow2(w - 1) else 0
    decreases w
  {
    var top := Pow2(w - 1);
    Pow2Doubles(w);
    assert Bitwise(And, a, top, w) == Combine(And, a % 2, top % 2) + 2 * Bitwise(And, a / 2, top / 2, w - 1);
    if w == 1 {
      assert top == 1 && a < 2;
      assert Bitwise(And, a / 2, 0, 0) == 0;
    } else {
      var half := Pow2(w - 2);
      Pow2Doubles(w - 1);
      assert top == 2 * half && top % 2 == 0 && top / 2 == half;
      assert a / 2 >= half <==> a >= top;
      AndTopBit(a / 2, w - 1);
    }
  }

  /** Masking with 0x80 keeps the highest bit in place: 0x80 or 0, not 1 or 0. */
  lemma AndHighBit(a: byte)
    ensures AndByte(a, 0x80) == if a >= 0x80 then 0x80 else 0
  {
    AndTopBit(a as nat, 8);
  }

  /** Masking with 0 clears every bit; masking with 0xFF keeps every bit. */
  lemma AndExtremes(a: byte)
    ensures AndByte(a, 0x00) == 0 && AndByte(a, 0xFF) == a
  {
  }

  /** uint16 addition, wrapping modulo 65536. */
  function AddWord(a: word, b: word): (r: word)
    ensures a as int + b as int < 0x1_0000 ==> r as int == a as int + b as int
    ensures a as int + b as int >= 0x1_0000 ==> r as int == a as int + b as int - 0x1_0000
  {
    ((a as int + b as int) % 0x1_0000) as word
  }

  /** uint16 subtraction, wrapping modulo 65536. */
  function SubWord(a: word, b: word): (r: word)
    ensures a >= b ==> r == a - b
    ensures a < b ==> r as int == a as int - b as int + 0x1_0000
  {
    ((a as int - b as int) % 0x1_0000) as word
  }
}
