/** The pieces of MD5 as RFC 1321 describes them in words. */
module Md5Laws {
  import opened Md5Words
  import opened Md5Rfc

  // ----- the functions of the rounds -----

  /** Bit `k` of a number, the lowest first. */
  function BitAt(w: nat, k: nat): bool
    decreases k
  {
    if k == 0 then w % 2 == 1 else BitAt(w / 2, k - 1)
  }

  lemma {:induction false} BitOfBits(op: BitOp, a: nat, b: nat, n: nat, k: nat)
    requires k < n
    ensures BitAt(Bits(op, a, b, n), k) == OnBits(op, BitAt(a, k), BitAt(b, k))
    decreases n
  {
    var rest := Bits(op, a / 2, b / 2, n - 1);
    assert Bits(op, a, b, n) / 2 == rest;
    if k > 0 { BitOfBits(op, a / 2, b / 2, n - 1, k - 1); }
  }

  lemma {:induction false} BitOfRest(x: nat, n: nat, k: nat)
    requires x < Pow2(n) && k < n
    ensures BitAt(Pow2(n) - 1 - x, k) == !BitAt(x, k)
    decreases n
  {
    assert (Pow2(n) - 1 - x) / 2 == Pow2(n - 1) - 1 - x / 2;
    if k > 0 { BitOfRest(x / 2, n - 1, k - 1); }
  }

  lemma BitOfNot(x: Word, k: nat)
    requires k < 32
    ensures BitAt(Not(x), k) == !BitAt(x, k)
  {
    Pow2Is32();
    BitOfRest(x, 32, k);
  }

  lemma BitOfWord(op: BitOp, a: Word, b: Word, k: nat)
    requires k < 32
    ensures BitAt(Word32(op, a, b), k) == OnBits(op, BitAt(a, k), BitAt(b, k))
  {
    BitOfBits(op, a, b, 32, k);
  }

  /** Bit by bit, the function of the first round is "if x then y else z", that of the second "if z
      then x else y", that of the third tells whether an odd number of the three are set, and
      that of the fourth whether y differs from "x or not z". */
  lemma MixBit(round: nat, x: Word, y: Word, z: Word, k: nat)
    requires round < 4 && k < 32
    ensures var p, q, r := BitAt(x, k), BitAt(y, k), BitAt(z, k);
            BitAt(Mix(round, x, y, z), k) ==
            match round
            case 0 => if p then q else r
            case 1 => if r then p else q
            case 2 => (p && q && r) || (p && !q && !r) || (!p && q && !r) || (!p && !q && r)
            case _ => q != (p || !r)
  {
    BitOfNot(x, k);
    BitOfNot(z, k);
    if round == 0 {
      BitOfWord(And, x, y, k);
      BitOfWord(And, Not(x), z, k);
      BitOfWord(Or, Word32(And, x, y), Word32(And, Not(x), z), k);
    } else if round == 1 {
      BitOfWord(And, x, z, k);
      BitOfWord(And, y, Not(z), k);
      BitOfWord(Or, Word32(And, x, z), Word32(And, y, Not(z)), k);
    } else if round == 2 {
      BitOfWord(Xor, x, y, k);
      BitOfWord(Xor, Word32(Xor, x, y), z, k);
    } else {
      BitOfWord(Or, x, Not(z), k);
      BitOfWord(Xor, y, Word32(Or, x, Not(z)), k);
    }
  }

  // ----- rotations, and operations undone -----

  lemma RotateIs(w: Word, s: nat)
    requires 0 < s < 32
    ensures Pow2(32 - s) * Pow2(s) == TWO32
    ensures Rotate(w, s) == (w % Pow2(32 - s)) * Pow2(s) + w / Pow2(32 - s)
  {
    var p, q := Pow2(s), Pow2(32 - s);
    UpIs(w, s);
    DownIs(w, 32 - s);
    Pow2Is32();
    Pow2Add(32 - s, s);
    RotateParts(w, p, q);
  }

  lemma Parts(w: nat, p: nat, q: nat, r: nat)
    requires p > 0 && q > 0 && w < q * p && r == (w % q) * p + w / q
    ensures (r % p) * q + r / p == w
  {
    RotateParts(w, p, q);
    DivModUnique(r, p, w % q, w / q);
    assert w == (w / q) * q + w % q;
  }

  /** Rotating by the rest of the word undoes a rotation. */
  lemma RotationUndone(w: Word, s: nat)
    requires 0 < s < 32
    ensures Rotate(Rotate(w, s), 32 - s) == w
  {
    var p, q := Pow2(s), Pow2(32 - s);
    RotateIs(w, s);
    Parts(w, p, q, Rotate(w, s));
    RotateIs(Rotate(w, s), 32 - s);
  }

  /** The difference of two words. */
  function Minus(x: Word, y: Word): Word { (x - y) % TWO32 }

  lemma PlusMinus(x: Word, y: Word)
    ensures Minus(Plus(x, y), x) == y
  {
  }

  /** What an operation adds up can be read off its result: the register it replaces, the function
      of the other three, the word of the block and the entry of the table. */
  lemma OperationUndone(round: nat, a: Word, b: Word, c: Word, d: Word, x: Word, s: nat, t: Word)
    requires 0 < s < 32
    ensures Rotate(Minus(Operation(round, a, b, c, d, x, s, t), b), 32 - s) ==
            (a + Mix(round, b, c, d) + x + t) % TWO32
  {
    var w := Plus(Plus(a, Mix(round, b, c, d)), Plus(x, t));
    PlusMinus(b, Rotate(w, s));
    RotationUndone(w, s);
    SumOfFour(a, Mix(round, b, c, d), x, t);
  }

  lemma SumOfFour(a: Word, m: Word, x: Word, t: Word)
    ensures Plus(Plus(a, m), Plus(x, t)) == (a + m + x + t) % TWO32
  {
  }

  // ----- the order of the words -----

  /** The words of the block in the orders in which the rounds take them, as the standard lists
      them: each round has every word once. */
  lemma Order1()
    ensures Index(0) == 0 && Index(1) == 1 && Index(2) == 2 && Index(3) == 3
    ensures Index(4) == 4 && Index(5) == 5 && Index(6) == 6 && Index(7) == 7
    ensures Index(8) == 8 && Index(9) == 9 && Index(10) == 10 && Index(11) == 11
    ensures Index(12) == 12 && Index(13) == 13 && Index(14) == 14 && Index(15) == 15
  {
  }

  lemma Order2()
    ensures Index(16) == 1 && Index(17) == 6 && Index(18) == 11 && Index(19) == 0
    ensures Index(20) == 5 && Index(21) == 10 && Index(22) == 15 && Index(23) == 4
    ensures Index(24) == 9 && Index(25) == 14 && Index(26) == 3 && Index(27) == 8
    ensures Index(28) == 13 && Index(29) == 2 && Index(30) == 7 && Index(31) == 12
  {
  }

  lemma Order3()
    ensures Index(32) == 5 && Index(33) == 8 && Index(34) == 11 && Index(35) == 14
    ensures Index(36) == 1 && Index(37) == 4 && Index(38) == 7 && Index(39) == 10
    ensures Index(40) == 13 && Index(41) == 0 && Index(42) == 3 && Index(43) == 6
    ensures Index(44) == 9 && Index(45) == 12 && Index(46) == 15 && Index(47) == 2
  {
  }

  lemma Order4()
    ensures Index(48) == 0 && Index(49) == 7 && Index(50) == 14 && Index(51) == 5
    ensures Index(52) == 12 && Index(53) == 3 && Index(54) == 10 && Index(55) == 1
    ensures Index(56) == 8 && Index(57) == 15 && Index(58) == 6 && Index(59) == 13
    ensures Index(60) == 4 && Index(61) == 11 && Index(62) == 2 && Index(63) == 9
  {
  }

  /** How far the operations of each round rotate, in turn. */
  lemma ShiftsInTurn(i: nat)
    requires i < 16
    ensures Shift(i) == [7, 12, 17, 22][i % 4] && Shift(16 + i) == [5, 9, 14, 20][i % 4]
    ensures Shift(32 + i) == [4, 11, 16, 23][i % 4] && Shift(48 + i) == [6, 10, 15, 21][i % 4]
  {
  }

  // ----- bytes and words -----

  lemma {:induction false} LowBytes(x: nat, k: nat)
    ensures LittleEndian(x, k + 1) == [x % 256] + LittleEndian(x / 256, k) && LittleEndian(x, 0) == []
  {
  }

  /** The bytes of a word, and the word of the bytes. */
  lemma BytesOfWord(b0: Byte, b1: Byte, b2: Byte, b3: Byte)
    ensures LittleEndian(WordOf(b0, b1, b2, b3), 4) == [b0, b1, b2, b3]
  {
    var y2 := b2 as int + 256 * b3;
    var y1 := b1 as int + 256 * y2;
    var x := b0 as int + 256 * y1;
    assert x == WordOf(b0, b1, b2, b3);
    DivModUnique(x, 256, y1, b0);
    DivModUnique(y1, 256, y2, b1);
    DivModUnique(y2, 256, b3, b2);
    LowBytes(x, 3);
    LowBytes(y1, 2);
    LowBytes(y2, 1);
    LowBytes(b3, 0);
  }

  /** The buffer starts as the bytes 01 23 45 67 89 ab cd ef and the same backwards. */
  lemma InitialBytes()
    ensures LittleEndian(INITIAL.a, 4) == [0x01, 0x23, 0x45, 0x67]
    ensures LittleEndian(INITIAL.b, 4) == [0x89, 0xab, 0xcd, 0xef]
    ensures LittleEndian(INITIAL.c, 4) == [0xfe, 0xdc, 0xba, 0x98]
    ensures LittleEndian(INITIAL.d, 4) == [0x76, 0x54, 0x32, 0x10]
  {
    BytesOfWord(0x01, 0x23, 0x45, 0x67);
    BytesOfWord(0x89, 0xab, 0xcd, 0xef);
    BytesOfWord(0xfe, 0xdc, 0xba, 0x98);
    BytesOfWord(0x76, 0x54, 0x32, 0x10);
  }
}
