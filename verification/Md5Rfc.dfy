/** MD5 as RFC 1321 defines it, on words of 32 bits. */
module Md5Rfc {
  import opened Md5Words

  /** The sixteen words of a block. */
  type Block = b: seq<Word> | |b| == 16 witness seq(16, i => 0)

  /** The buffer, section 3.3. */
  datatype Regs = Regs(a: Word, b: Word, c: Word, d: Word)

  const INITIAL := Regs(0x6745_2301, 0xefcd_ab89, 0x98ba_dcfe, 0x1032_5476)

  function Not(x: Word): Word { TWO32 - 1 - x }

  function Plus(x: Word, y: Word): Word { (x + y) % TWO32 }

  /** F, G, H and I, section 3.4. */
  function Mix(round: nat, x: Word, y: Word, z: Word): Word {
    if round == 0 then Word32(Or, Word32(And, x, y), Word32(And, Not(x), z))
    else if round == 1 then Word32(Or, Word32(And, x, z), Word32(And, y, Not(z)))
    else if round == 2 then Word32(Xor, Word32(Xor, x, y), z)
    else Word32(Xor, y, Word32(Or, x, Not(z)))
  }

  /** Which word of the block operation `i` uses, section 3.4. */
  function Index(i: nat): (k: nat)
    requires i < 64
    ensures k < 16
  {
    if i < 16 then i
    else if i < 32 then (1 + 5 * i) % 16
    else if i < 48 then (5 + 3 * i) % 16
    else (7 * i) % 16
  }

  /** How far operation `i` rotates. */
  function Shift(i: nat): (s: nat)
    requires i < 64
    ensures 0 < s < 32
  {
    var j := i % 4;
    if i < 16 then (if j == 0 then 7 else if j == 1 then 12 else if j == 2 then 17 else 22)
    else if i < 32 then (if j == 0 then 5 else if j == 1 then 9 else if j == 2 then 14 else 20)
    else if i < 48 then (if j == 0 then 4 else if j == 1 then 11 else if j == 2 then 16 else 23)
    else (if j == 0 then 6 else if j == 1 then 10 else if j == 2 then 15 else 21)
  }

  /** The table of section 3.4, a round at a time: entry `i` is the integer part of
      2^32 * abs(sin(i + 1)). */
  function T(i: nat): Word
    requires i < 64
  {
    if i < 16 then T1(i) else if i < 32 then T2(i) else if i < 48 then T3(i) else T4(i)
  }

  function T1(i: nat): Word {
    match i
    case 0 => 0xd76a_a478
    case 1 => 0xe8c7_b756
    case 2 => 0x2420_70db
    case 3 => 0xc1bd_ceee
    case 4 => 0xf57c_0faf
    case 5 => 0x4787_c62a
    case 6 => 0xa830_4613
    case 7 => 0xfd46_9501
    case 8 => 0x6980_98d8
    case 9 => 0x8b44_f7af
    case 10 => 0xffff_5bb1
    case 11 => 0x895c_d7be
    case 12 => 0x6b90_1122
    case 13 => 0xfd98_7193
    case 14 => 0xa679_438e
    case _ => 0x49b4_0821
  }

  function T2(i: nat): Word {
    match i
    case 16 => 0xf61e_2562
    case 17 => 0xc040_b340
    case 18 => 0x265e_5a51
    case 19 => 0xe9b6_c7aa
    case 20 => 0xd62f_105d
    case 21 => 0x0244_1453
    case 22 => 0xd8a1_e681
    case 23 => 0xe7d3_fbc8
    case 24 => 0x21e1_cde6
    case 25 => 0xc337_07d6
    case 26 => 0xf4d5_0d87
    case 27 => 0x455a_14ed
    case 28 => 0xa9e3_e905
    case 29 => 0xfcef_a3f8
    case 30 => 0x676f_02d9
    case _ => 0x8d2a_4c8a
  }

  function T3(i: nat): Word {
    match i
    case 32 => 0xfffa_3942
    case 33 => 0x8771_f681
    case 34 => 0x6d9d_6122
    case 35 => 0xfde5_380c
    case 36 => 0xa4be_ea44
    case 37 => 0x4bde_cfa9
    case 38 => 0xf6bb_4b60
    case 39 => 0xbebf_bc70
    case 40 => 0x289b_7ec6
    case 41 => 0xeaa1_27fa
    case 42 => 0xd4ef_3085
    case 43 => 0x0488_1d05
    case 44 => 0xd9d4_d039
    case 45 => 0xe6db_99e5
    case 46 => 0x1fa2_7cf8
    case _ => 0xc4ac_5665
  }

  function T4(i: nat): Word {
    match i
    case 48 => 0xf429_2244
    case 49 => 0x432a_ff97
    case 50 => 0xab94_23a7
    case 51 => 0xfc93_a039
    case 52 => 0x655b_59c3
    case 53 => 0x8f0c_cc92
    case 54 => 0xffef_f47d
    case 55 => 0x8584_5dd1
    case 56 => 0x6fa8_7e4f
    case 57 => 0xfe2c_e6e0
    case 58 => 0xa301_4314
    case 59 => 0x4e08_11a1
    case 60 => 0xf753_7e82
    case 61 => 0xbd3a_f235
    case 62 => 0x2ad7_d2bb
    case _ => 0xeb86_d391
  }

  function Rotate(w: Word, s: nat): Word {
    if 0 < s < 32 then
      OrRotated(w, s);
      RotL(w, s)
    else w
  }

  /** `b + ((a + Mix(b, c, d) + x + t) <<< s)` */
  function Operation(round: nat, a: Word, b: Word, c: Word, d: Word, x: Word, s: nat, t: Word): Word {
    Plus(b, Rotate(Plus(Plus(a, Mix(round, b, c, d)), Plus(x, t)), s))
  }

  /** What one operation computes. It is a parameter of what follows, so that the proofs
      about the order of the operations need not look inside one. */
  type Operator = (nat, Word, Word, Word, Word, Word, nat, Word) -> Word

  const OPERATION: Operator := (round, a, b, c, d, x, s, t) => Operation(round, a, b, c, d, x, s, t)

  /** Operation `i` on a block, and the change of the registers' roles: ABCD, DABC, CDAB, BCDA. */
  function Step(i: nat, r: Regs, block: Block, op: Operator): Regs
    requires i < 64
  {
    Regs(r.d, op(i / 16, r.a, r.b, r.c, r.d, block[Index(i)], Shift(i), T(i)), r.b, r.c)
  }

  /** The first `n` operations. */
  function Steps(n: nat, r: Regs, block: Block, op: Operator): Regs
    requires n <= 64
    decreases n, block
  {
    if n == 0 then r else Step(n - 1, Steps(n - 1, r, block, op), block, op)
  }

  function PlusRegs(r: Regs, s: Regs): Regs {
    Regs(Plus(r.a, s.a), Plus(r.b, s.b), Plus(r.c, s.c), Plus(r.d, s.d))
  }

  /** One block, section 3.4. */
  function Compress(r: Regs, block: Block): Regs {
    PlusRegs(Steps(64, r, block, OPERATION), r)
  }

  // ----- sections 3.1 and 3.2: padding and length -----

  type Byte = b: int | 0 <= b < 256

  /** The smallest number of zero bytes after 0x80 that leaves room for the length. */
  function ZeroCount(n: nat): (z: nat)
    ensures z < 64 && (n + 1 + z) % 64 == 56
  {
    (119 - n % 64) % 64
  }

  function Zeros(n: nat): (s: seq<Byte>)
    ensures |s| == n && forall i | 0 <= i < n :: s[i] == 0
  {
    if n == 0 then [] else Zeros(n - 1) + [0]
  }

  /** The `k` low order bytes of `x`, the lowest first. */
  function LittleEndian(x: nat, k: nat): (s: seq<Byte>)
    ensures |s| == k
  {
    if k == 0 then [] else [x % 256] + LittleEndian(x / 256, k - 1)
  }

  /** The message padded to whole blocks; its length in bits is taken modulo 2^64. */
  function Padded(msg: seq<Byte>): seq<Byte> {
    msg + [0x80] + Zeros(ZeroCount(|msg|)) + LittleEndian(8 * |msg|, 8)
  }

  /** Four bytes as a word, the lowest first. */
  function WordOf(b0: Byte, b1: Byte, b2: Byte, b3: Byte): Word {
    var n0: int, n1: int, n2: int, n3: int := b0, b1, b2, b3;
    n0 + 0x100 * n1 + 0x1_0000 * n2 + 0x100_0000 * n3
  }

  /** The words of the bytes of `s`, four at a time. */
  function Words(s: seq<Byte>): (w: seq<Word>)
    ensures |w| == |s| / 4
  {
    if |s| < 4 then [] else [WordOf(s[0], s[1], s[2], s[3])] + Words(s[4..])
  }

  /** The whole blocks of `p`. */
  function Blocks(p: seq<Byte>): seq<Block> {
    if |p| < 64 then [] else [Words(p[..64])] + Blocks(p[64..])
  }

  function Fold(r: Regs, blocks: seq<Block>): Regs
    decreases |blocks|
  {
    if blocks == [] then r else Fold(Compress(r, blocks[0]), blocks[1..])
  }

  /** The buffer after the whole message. */
  function Digest(msg: seq<Byte>): Regs {
    Fold(INITIAL, Blocks(Padded(msg)))
  }
}
