/** `md51`, `md5blk`, `rhex` and `hex` of `md5.js`: whole messages and their digest. */
module Md5Message {
  import opened Md5Words
  import opened Md5Rfc
  import opened Md5Js

  // ----- words and bytes -----

  lemma {:induction false} WordsAt(s: seq<Byte>, j: nat)
    requires 4 * j + 4 <= |s|
    ensures Words(s)[j] == WordOf(s[4 * j], s[4 * j + 1], s[4 * j + 2], s[4 * j + 3])
  {
    if j > 0 {
      WordsAt(s[4..], j - 1);
    }
  }

  lemma {:induction false} WordsAppend(a: seq<Byte>, b: seq<Byte>)
    requires |a| % 4 == 0
    ensures Words(a + b) == Words(a) + Words(b)
  {
    if a == [] {
      assert a + b == b;
    } else {
      assert (a + b)[4..] == a[4..] + b;
      WordsAppend(a[4..], b);
    }
  }

  lemma {:induction false} BlocksAppend(a: seq<Byte>, b: seq<Byte>)
    requires |a| % 64 == 0
    ensures Blocks(a + b) == Blocks(a) + Blocks(b)
  {
    if |a| < 64 {
      assert a + b == b;
    } else {
      assert (a + b)[..64] == a[..64] && (a + b)[64..] == a[64..] + b;
      BlocksAppend(a[64..], b);
    }
  }

  lemma {:induction false} FoldAppend(r: Regs, xs: seq<Block>, ys: seq<Block>)
    ensures Fold(r, xs + ys) == Fold(Fold(r, xs), ys)
    decreases |xs|
  {
    if xs == [] {
      assert xs + ys == ys;
    } else {
      assert (xs + ys)[1..] == xs[1..] + ys;
      FoldAppend(Compress(r, xs[0]), xs[1..], ys);
    }
  }

  lemma OneBlock(s: seq<Byte>)
    requires |s| == 64
    ensures Blocks(s) == [Words(s)]
  {
    assert s[..64] == s && s[64..] == [];
    assert Blocks([]) == [];
  }

  lemma {:induction false} FoldBlock(r: Regs, done: seq<Byte>, s: seq<Byte>)
    requires |done| % 64 == 0 && |s| == 64
    ensures Fold(r, Blocks(done + s)) == Compress(Fold(r, Blocks(done)), Words(s))
  {
    BlocksAppend(done, s);
    OneBlock(s);
    FoldAppend(r, Blocks(done), [Words(s)]);
    assert [Words(s)][1..] == [];
  }

  // ----- md5blk -----

  lemma Pow2Bytes()
    ensures Pow2(0) == 1 && Pow2(8) == 0x100 && Pow2(16) == 0x1_0000 && Pow2(24) == 0x100_0000
  {
    assert Pow2(8) == 0x100;
    Pow2Is32();
    Pow2Add(16, 8);
  }

  lemma ProductBound(c: int, p: int)
    requires 0 <= c < 0x100 && p > 0 && 0x100 * p <= TWO32
    ensures 0 <= c * p && c * p + p <= TWO32
  {
    assert (255 - c) * p >= 0;
  }

  lemma ByteShifted(c: Byte, k: nat, p: int)
    requires p == Pow2(k) && 0x100 * p <= TWO32
    ensures 0 <= c * p && c * p + p <= TWO32 && U(Shl(c, k)) == c * p
  {
    var n: int := c;
    ProductBound(n, p);
    SmallWord(n);
    UpIs(n, k);
    var x := n * p;
    SmallWord(x);
    WordOfShl(n, k);
  }

  lemma ByteUp(c: Byte)
    ensures U(Shl(c, 8)) == 0x100 * c && U(Shl(c, 16)) == 0x1_0000 * c && U(Shl(c, 24)) == 0x100_0000 * c
  {
    Pow2Bytes();
    ByteShifted(c, 8, 0x100);
    ByteShifted(c, 16, 0x1_0000);
    ByteShifted(c, 24, 0x100_0000);
  }

  lemma SumOfFour(a: int, b: int, c: int, d: int)
    ensures U(a + b + c + d) == (U(a) + U(b) + U(c) + U(d)) % TWO32
  {
    WordOfSum(a + b + c, d);
    WordOfSum(a + b, c);
    WordOfSum(a, b);
  }

  lemma PackedWord(c0: Byte, c1: Byte, c2: Byte, c3: Byte)
    ensures U(c0 + Shl(c1, 8) + Shl(c2, 16) + Shl(c3, 24)) == WordOf(c0, c1, c2, c3)
  {
    ByteUp(c1);
    ByteUp(c2);
    ByteUp(c3);
    SmallWord(c0);
    var a1, a2, a3 := Shl(c1, 8), Shl(c2, 16), Shl(c3, 24);
    SumOfFour(c0, a1, a2, a3);
    SmallWord(U(c0) + U(a1) + U(a2) + U(a3));
  }

  method Md5blk(s: seq<Byte>) returns (md5blks: seq<int>)
    requires |s| == 64
    ensures |md5blks| == 16 && WordsOf(md5blks) == Words(s)
  {
    md5blks := [];
    var i := 0;
    while i < 64
      invariant 0 <= i <= 64 && i % 4 == 0 && |md5blks| == i / 4
      invariant forall j | 0 <= j < i / 4 :: U(md5blks[j]) == Words(s)[j]
    {
      PackedWord(s[i], s[i + 1], s[i + 2], s[i + 3]);
      WordsAt(s, i / 4);
      md5blks := md5blks + [s[i] + Shl(s[i + 1], 8) + Shl(s[i + 2], 16) + Shl(s[i + 3], 24)];
      i := i + 4;
    }
    assert WordsOf(md5blks) == Words(s);
  }

  // ----- the tail -----

  /** The bytes of an unfinished block, with zeros after them. */
  function Pad(t: seq<Byte>): (p: seq<Byte>)
    requires |t| <= 64
    ensures |p| == 64
  {
    seq(64, k requires 0 <= k < 64 => if k < |t| then t[k] else 0)
  }

  lemma {:induction false} OrCommutes(a: nat, b: nat, n: nat)
    ensures Bits(Or, a, b, n) == Bits(Or, b, a, n)
    decreases n
  {
    if n > 0 {
      OrCommutes(a / 2, b / 2, n - 1);
    }
  }

  /** `x |= c << k` adds a byte above the bits of `x`. */
  lemma OrByte(x: int, c: Byte, k: nat, p: int)
    requires p == Pow2(k) && 0x100 * p <= TWO32 && U(x) < p
    ensures U(JsBits(Or, x, Shl(c, k))) == U(x) + c * p
  {
    ByteShifted(c, k, p);
    var w, x1 := c * p, U(x);
    assert Bits(Or, x1, w, 32) == x1 + w by {
      Pow2Is32();
      OrDisjoint(c, k, x1, 32);
      OrCommutes(x1, w, 32);
    }
    BitsIs(Or, x, Shl(c, k), x1, w);
  }

  function Place(m: nat): int
    requires m < 4
  {
    if m == 0 then 1 else if m == 1 then 0x100 else if m == 2 then 0x1_0000 else 0x100_0000
  }

  /** One more byte changes one word, by the value of the byte at its place. */
  lemma PadGrows(t: seq<Byte>, c: Byte, j: nat)
    requires |t| < 64 && j < 16
    ensures Words(Pad(t + [c]))[j] == Words(Pad(t))[j] + if j == |t| / 4 then c * Place(|t| % 4) else 0
    ensures j == |t| / 4 ==> Words(Pad(t))[j] < Place(|t| % 4)
  {
    WordsAt(Pad(t), j);
    WordsAt(Pad(t + [c]), j);
    var m := |t| % 4;
    assert |t| == 4 * (|t| / 4) + m;
  }

  lemma PlaceIs(i: nat)
    ensures Pow2(8 * (i % 4)) == Place(i % 4)
  {
    Pow2Bytes();
    assert i % 4 == 0 || i % 4 == 1 || i % 4 == 2 || i % 4 == 3;
  }

  ghost predicate TailHolds(tail: seq<int>, t: seq<Byte>)
    requires |t| <= 64
  {
    |tail| == 16 && forall j | 0 <= j < 16 :: U(tail[j]) == Words(Pad(t))[j]
  }

  method OrIntoTail(tail: array<int>, i: nat, c: Byte, ghost t: seq<Byte>)
    requires tail.Length == 16 && i == |t| < 64 && TailHolds(tail[..], t)
    modifies tail
    ensures TailHolds(tail[..], t + [c])
  {
    forall j | 0 <= j < 16
      ensures Words(Pad(t + [c]))[j] == Words(Pad(t))[j] + if j == i / 4 then c * Place(i % 4) else 0
      ensures j == i / 4 ==> Words(Pad(t))[j] < Place(i % 4)
    {
      PadGrows(t, c, j);
    }
    PlaceIs(i);
    OrByte(tail[i / 4], c, 8 * (i % 4), Place(i % 4));
    tail[i / 4] := JsBits(Or, tail[i / 4], Shl(c, 8 * (i % 4)));
  }

  // ----- the length -----

  lemma Pow2Times256(m: nat)
    requires m > 0
    ensures Pow2(8 * m) == 0x100 * Pow2(8 * (m - 1))
  {
    Pow2Add(8, 8 * (m - 1));
    assert Pow2(8) == 0x100;
  }

  /** A number without its `m` lowest bytes. */
  function Drop(x: nat, m: nat): nat {
    if m == 0 then x else Drop(x / 0x100, m - 1)
  }

  lemma {:induction false} DropIs(x: nat, m: nat)
    ensures Drop(x, m) == x / Pow2(8 * m)
    decreases m
  {
    if m == 0 {
      assert x / 1 == x;
    } else {
      DropIs(x / 0x100, m - 1);
      Pow2Times256(m);
      QuotientOfQuotient(x, Pow2(8 * (m - 1)));
    }
  }

  lemma {:induction false} LittleEndianSplit(x: nat, m: nat, n: nat)
    ensures LittleEndian(x, m + n) == LittleEndian(x, m) + LittleEndian(Drop(x, m), n)
    decreases m
  {
    if m > 0 {
      LittleEndianSplit(x / 0x100, m - 1, n);
    }
  }

  lemma DropWord(x: nat)
    ensures Drop(x, 4) == x / TWO32
  {
    DropIs(x, 4);
    Pow2Is32();
  }

  lemma QuotientOfQuotient(x: nat, q: nat)
    requires q > 0
    ensures x / 0x100 / q == x / (0x100 * q)
  {
    var a, b := x / 0x100, x % 0x100;
    var c, d := a / q, a % q;
    assert a == q * c + d;
    assert x == (0x100 * q) * c + (0x100 * d + b);
    DivModUnique(x, 0x100 * q, c, 0x100 * d + b);
  }

  lemma LittleEndianWord(x: nat)
    ensures var s := LittleEndian(x, 4); WordOf(s[0], s[1], s[2], s[3]) == x % TWO32
  {
    var s := LittleEndian(x, 4);
    var x1 := x / 0x100;
    var x2 := x1 / 0x100;
    var x3 := x2 / 0x100;
    assert s == [x % 0x100] + LittleEndian(x1, 3);
    assert LittleEndian(x1, 3) == [x1 % 0x100] + LittleEndian(x2, 2);
    assert LittleEndian(x2, 2) == [x2 % 0x100] + LittleEndian(x3, 1);
    assert LittleEndian(x3, 1) == [x3 % 0x100] + LittleEndian(x3 / 0x100, 0);
    var w := x % 0x100 + 0x100 * (x1 % 0x100) + 0x1_0000 * (x2 % 0x100) + 0x100_0000 * (x3 % 0x100);
    DivModUnique(x, TWO32, x3 / 0x100, w);
  }

  lemma LengthWords(x: nat)
    ensures Words(LittleEndian(x, 8)) == [x % TWO32, (x / TWO32) % TWO32]
  {
    var lo, hi := LittleEndian(x, 4), LittleEndian(x / TWO32, 4);
    LittleEndianSplit(x, 4, 4);
    DropWord(x);
    LittleEndianWord(x);
    LittleEndianWord(x / TWO32);
    WordsAppend(lo, hi);
    assert lo[4..] == [] && hi[4..] == [];
    assert Words([]) == [];
  }

  /** What `md51` digests: the padding of the standard, but with the number of bits cut
      down to 32 bits. The second word of the length is never written. */
  function JsPadded(msg: seq<Byte>): seq<Byte> {
    msg + [0x80] + Zeros(ZeroCount(|msg|)) + LittleEndian(8 * |msg| % TWO32, 8)
  }

  /** The padding is the standard's exactly for messages whose length in bits fits 32 bits
      (up to the 2^64 at which the standard itself starts over). */
  lemma PaddingIsStandardIff(msg: seq<Byte>)
    requires 8 * |msg| < TWO32 * TWO32
    ensures JsPadded(msg) == Padded(msg) <==> 8 * |msg| < TWO32
  {
    var head := msg + [0x80] + Zeros(ZeroCount(|msg|));
    SameLength(8 * |msg|);
    SameSuffix(head, LittleEndian(8 * |msg| % TWO32, 8), LittleEndian(8 * |msg|, 8));
  }

  lemma SameSuffix(head: seq<Byte>, a: seq<Byte>, b: seq<Byte>)
    ensures head + a == head + b <==> a == b
  {
    assert (head + a)[|head|..] == a && (head + b)[|head|..] == b;
  }

  lemma SameLength(n: nat)
    requires n < TWO32 * TWO32
    ensures LittleEndian(n % TWO32, 8) == LittleEndian(n, 8) <==> n < TWO32
  {
    LengthWords(n);
    LengthWords(n % TWO32);
    HighWords(n);
  }

  lemma HighWords(n: nat)
    requires n < TWO32 * TWO32
    ensures (n / TWO32) % TWO32 == n / TWO32 && (n % TWO32 / TWO32) % TWO32 == 0
    ensures n / TWO32 == 0 <==> n < TWO32
    ensures n < TWO32 ==> n % TWO32 == n
  {
  }

  // ----- md51 -----

  /** The last block: what is left of the message, zeros, and the length. */
  function LastBlock(u: seq<Byte>, n: nat): (b: seq<Byte>)
    requires |u| <= 56
    ensures |b| == 64
  {
    u + Zeros(56 - |u|) + LittleEndian(8 * n % TWO32, 8)
  }

  lemma LastBlockWords(tail: seq<int>, u: seq<Byte>, n: nat)
    requires |u| <= 56 && TailHolds(tail, u)
    ensures WordsOf(tail[14 := n * 8]) == Words(LastBlock(u, n))
  {
    var head, len := u + Zeros(56 - |u|), LittleEndian(8 * n % TWO32, 8);
    WordsAppend(head, len);
    LengthWords(8 * n % TWO32);
    assert 8 * n % TWO32 / TWO32 == 0;
    WordsAt(Pad(u), 15);
    forall j | 0 <= j < 14 ensures Words(head)[j] == Words(Pad(u))[j] {
      WordsAt(head, j);
      WordsAt(Pad(u), j);
    }
  }

  lemma ZeroCountParts(n: nat, m: nat)
    requires m == n % 64
    ensures m > 55 ==> ZeroCount(n) == (63 - m) + 56
    ensures m <= 55 ==> ZeroCount(n) == 55 - m
  {
  }

  lemma {:induction false} ZerosAdd(m: nat, n: nat)
    ensures Zeros(m + n) == Zeros(m) + Zeros(n)
  {
  }

  lemma PaddedShort(done: seq<Byte>, t: seq<Byte>)
    requires |done| % 64 == 0 && |t| <= 55
    ensures JsPadded(done + t) == done + LastBlock(t + [0x80], |done + t|)
  {
    var n := |done + t|;
    ZeroCountParts(n, |t|);
    var z, len := Zeros(55 - |t|), LittleEndian(8 * n % TWO32, 8);
    assert (done + t) + [0x80] + z + len == done + ((t + [0x80]) + z + len);
  }

  lemma PaddedLong(done: seq<Byte>, t: seq<Byte>)
    requires |done| % 64 == 0 && 55 < |t| < 64
    ensures JsPadded(done + t) == (done + Pad(t + [0x80])) + LastBlock([], |done + t|)
  {
    var n := |done + t|;
    ZeroCountParts(n, |t|);
    ZerosAdd(63 - |t|, 56);
    var z, len := Zeros(63 - |t|), LittleEndian(8 * n % TWO32, 8);
    assert Pad(t + [0x80]) == (t + [0x80]) + z;
    assert LastBlock([], n) == Zeros(56) + len;
    assert (done + t) + [0x80] + (z + Zeros(56)) + len == (done + ((t + [0x80]) + z)) + (Zeros(56) + len);
  }

  predicate WholeBlocks(n: nat) { n % 64 == 0 }

  lemma NextBlock(n: nat)
    requires WholeBlocks(n)
    ensures WholeBlocks(n + 64)
  {
  }

  /** The buffer after the rest `s` of a message of `n` bytes: one block more, or two. */
  ghost function AfterTail(r: Regs, s: seq<Byte>, n: nat): Regs
    requires |s| < 64
  {
    if |s| > 55 then Compress(Compress(r, Words(Pad(s + [0x80]))), Words(LastBlock([], n)))
    else Compress(r, Words(LastBlock(s + [0x80], n)))
  }

  /** Digesting the tail after the whole blocks digests the padded message. */
  lemma {:induction false} TailIsPadding(r: Regs, done: seq<Byte>, s: seq<Byte>)
    requires WholeBlocks(|done|) && |s| < 64
    ensures AfterTail(Fold(r, Blocks(done)), s, |done + s|) == Fold(r, Blocks(JsPadded(done + s)))
  {
    if |s| > 55 {
      PaddedLong(done, s);
      FoldBlock(r, done, Pad(s + [0x80]));
      NextBlock(|done|);
      FoldBlock(r, done + Pad(s + [0x80]), LastBlock([], |done + s|));
    } else {
      PaddedShort(done, s);
      FoldBlock(r, done, LastBlock(s + [0x80], |done + s|));
    }
  }

  /** `md51`: digest a message of any length. */
  method Md51(s: seq<Byte>) returns (state: array<int>)
    ensures state.Length == 4 && fresh(state)
    ensures RegsOf(QuadOf(state)) == Fold(INITIAL, Blocks(JsPadded(s)))
  {
    var n := |s|;
    state := new int[4];
    state[0], state[1], state[2], state[3] := 1732584193, -271733879, -1732584194, 271733878;
    var i := 64;
    assert s[..0] == [] && Blocks([]) == [];
    while i <= |s|
      invariant 64 <= i <= |s| + 64 && WholeBlocks(i) && WholeBlocks(i - 64)
      invariant RegsOf(QuadOf(state)) == Fold(INITIAL, Blocks(s[..i - 64]))
    {
      var k := Md5blk(s[i - 64..i]);
      FoldBlock(INITIAL, s[..i - 64], s[i - 64..i]);
      assert s[..i - 64] + s[i - 64..i] == s[..i];
      Md5cycle(state, k);
      NextBlock(i);
      i := i + 64;
    }
    assert s[..i - 64] + s[i - 64..] == s;
    TailIsPadding(INITIAL, s[..i - 64], s[i - 64..]);
    Md5Tail(state, s[i - 64..], n);
  }

  /** The part of `md51` after its loop over whole blocks. */
  method Md5Tail(state: array<int>, s: seq<Byte>, n: nat)
    requires state.Length == 4 && |s| < 64
    modifies state
    ensures RegsOf(QuadOf(state)) == AfterTail(RegsOf(old(QuadOf(state))), s, n)
  {
    var tail := FillTail(s);
    if |s| > 55 {
      TailWords(tail[..], s + [0x80]);
      Md5cycle(state, tail[..]);
      ClearTail(tail);
      DigestLength(state, tail, n, []);
    } else {
      DigestLength(state, tail, n, s + [0x80]);
    }
  }

  /** The rest of the message, and the byte 0x80, in an array of sixteen words. */
  method FillTail(s: seq<Byte>) returns (tail: array<int>)
    requires |s| < 64
    ensures fresh(tail) && tail.Length == 16 && TailHolds(tail[..], s + [0x80])
  {
    tail := new int[16](_ => 0);
    EmptyTail(tail[..]);
    var i := 0;
    while i < |s|
      invariant 0 <= i <= |s| && TailHolds(tail[..], s[..i])
    {
      OrIntoTail(tail, i, s[i], s[..i]);
      assert s[..i] + [s[i]] == s[..i + 1];
      i := i + 1;
    }
    assert s[..i] == s;
    OrIntoTail(tail, i, 0x80, s);
  }

  /** Write the length over the last two words, which are zero, and digest the block. */
  method DigestLength(state: array<int>, tail: array<int>, n: nat, ghost u: seq<Byte>)
    requires state.Length == 4 && tail.Length == 16 && tail != state && |u| <= 56 && TailHolds(tail[..], u)
    modifies state, tail
    ensures RegsOf(QuadOf(state)) == Compress(RegsOf(old(QuadOf(state))), Words(LastBlock(u, n)))
  {
    LastBlockWords(tail[..], u, n);
    ghost var last := tail[..][14 := n * 8];
    tail[14] := n * 8;
    assert tail[..] == last;
    Md5cycle(state, tail[..]);
  }

  method ClearTail(tail: array<int>)
    requires tail.Length == 16
    modifies tail
    ensures TailHolds(tail[..], [])
  {
    var i := 0;
    while i < 16
      invariant 0 <= i <= 16 && forall j | 0 <= j < i :: tail[j] == 0
    {
      tail[i] := 0;
      i := i + 1;
    }
    EmptyTail(tail[..]);
  }

  lemma EmptyTail(tail: seq<int>)
    requires |tail| == 16 && forall j | 0 <= j < 16 :: tail[j] == 0
    ensures TailHolds(tail, [])
  {
    forall j | 0 <= j < 16 ensures Words(Pad([]))[j] == 0 {
      WordsAt(Pad([]), j);
    }
  }

  lemma TailWords(tail: seq<int>, u: seq<Byte>)
    requires |u| <= 64 && TailHolds(tail, u)
    ensures WordsOf(tail) == Words(Pad(u))
  {
  }

  /** For every message of less than 2^29 bytes, `md51` computes the buffer that the
      standard defines. */
  lemma Md51IsDigest(s: seq<Byte>)
    requires 8 * |s| < TWO32
    ensures Fold(INITIAL, Blocks(JsPadded(s))) == Digest(s)
  {
    PaddingIsStandardIff(s);
  }

  // ----- section 3.5: output -----

  function HexDigit(d: nat): char
    requires d < 16
  {
    "0123456789abcdef"[d]
  }

  /** Two digits a byte, the high one first. */
  function HexOf(s: seq<Byte>): string {
    if s == [] then "" else [HexDigit(s[0] / 16), HexDigit(s[0] % 16)] + HexOf(s[1..])
  }

  /** What a hexadecimal digit stands for. */
  function ValueOf(c: char): int {
    if '0' <= c <= '9' then c as int - '0' as int else c as int - 'a' as int + 10
  }

  /** The numbers that the characters stand for, two at a time, the high digit first. */
  function Read(text: string): seq<int>
    decreases |text|
  {
    if |text| < 2 then [] else [16 * ValueOf(text[0]) + ValueOf(text[1])] + Read(text[2..])
  }

  lemma DigitReads(d: nat)
    requires d < 16
    ensures ValueOf(HexDigit(d)) == d && ('0' <= HexDigit(d) <= '9' || 'a' <= HexDigit(d) <= 'f')
  {
  }

  lemma ReadFirst(h: char, l: char, text: string)
    ensures Read([h, l] + text) == [16 * ValueOf(h) + ValueOf(l)] + Read(text)
  {
    assert ([h, l] + text)[2..] == text;
  }

  /** The hexadecimal text has two digits a byte and reads back as the bytes. */
  lemma {:induction false} HexReadsBack(s: seq<Byte>)
    ensures |HexOf(s)| == 2 * |s| && Read(HexOf(s)) == s
  {
    if s != [] {
      HexReadsBack(s[1..]);
      DigitReads(s[0] / 16);
      DigitReads(s[0] % 16);
      ReadFirst(HexDigit(s[0] / 16), HexDigit(s[0] % 16), HexOf(s[1..]));
      assert s == [s[0]] + s[1..];
    }
  }

  /** Hexadecimal digit `i` of a word, the lowest first. */
  function Digit(w: Word, i: nat): (d: nat)
    ensures d < 16
  {
    (w / Pow2(4 * i)) % 16
  }

  lemma SameLowFour(x: int)
    ensures U(x) % 16 == x % 16
  {
  }

  lemma LowFour(x: int)
    ensures JsBits(And, x, 0x0F) == x % 16
  {
    var w, r := U(x), x % 16;
    SameLowFour(x);
    assert Bits(And, w, 15, 32) == r by {
      AndMask(w, 4, 32);
      assert Pow2(4) == 16;
    }
    SmallWord(15);
    SmallWord(r);
    SignedBits(And, x, 15, w, 15);
  }

  /** Sign bits copied in by `>>` are beyond the low four bits. */
  lemma SignDoesNotMatter(u: int, p: int, m: int)
    requires p > 0 && TWO32 == 16 * m * p
    ensures ((u - TWO32) / p) % 16 == (u / p) % 16
  {
    var q := u / p;
    assert u == p * q + u % p;
    assert u - TWO32 == p * (q - 16 * m) + u % p;
    DivModUnique(u - TWO32, p, q - 16 * m, u % p);
    assert (q - 16 * m) % 16 == q % 16;
  }

  /** `(n >> 4i) & 0x0F` is digit `i` of the word of `n`. */
  lemma Nibble(n: int, i: nat)
    requires i < 8
    ensures JsBits(And, Shr(n, 4 * i), 0x0F) == Digit(U(n), i)
  {
    var p, m := Pow2(4 * i), Pow2(4 * (7 - i));
    Pow2Add(4 * i, 4 * (7 - i));
    Pow2Add(28, 4);
    Pow2Is32();
    assert Pow2(4) == 16;
    assert TWO32 == 16 * m * p;
    ShrIs(n, 4 * i);
    LowFour(Shr(n, 4 * i));
    SignDoesNotMatter(U(n), p, m);
  }

  lemma QuotientBy16(w: int, p: int)
    requires p > 0
    ensures w / p / 16 == w / (16 * p)
  {
    HalfOfQuotient(w, p);
    HalfOfQuotient(w, 2 * p);
    HalfOfQuotient(w, 4 * p);
    HalfOfQuotient(w, 8 * p);
    assert w / p / 16 == w / p / 2 / 2 / 2 / 2;
  }

  lemma TwoDigits(v: nat)
    ensures v % 0x100 / 16 == v / 16 % 16 && v % 0x100 % 16 == v % 16
  {
  }

  lemma DigitsOfByte(w: Word, j: nat)
    requires j < 4
    ensures Drop(w, j) % 0x100 / 16 == Digit(w, 2 * j + 1)
    ensures Drop(w, j) % 0x100 % 16 == Digit(w, 2 * j)
  {
    DropIs(w, j);
    var p := Pow2(8 * j);
    assert Pow2(8 * j + 4) == 16 * p by {
      Pow2Add(8 * j, 4);
      assert Pow2(4) == 16;
    }
    QuotientBy16(w, p);
    TwoDigits(w / p);
  }

  lemma {:induction false} HexOfAppend(s: seq<Byte>, b: Byte)
    ensures HexOf(s + [b]) == HexOf(s) + [HexDigit(b / 16), HexDigit(b % 16)]
  {
    if s == [] {
      assert s + [b] == [b] && [b][1..] == [];
    } else {
      assert (s + [b])[1..] == s[1..] + [b];
      HexOfAppend(s[1..], b);
    }
  }

  lemma OneByte(y: nat)
    ensures LittleEndian(y, 1) == [y % 0x100]
  {
    assert LittleEndian(y / 0x100, 0) == [];
  }

  lemma LittleEndianByte(x: nat, j: nat)
    ensures LittleEndian(x, j + 1) == LittleEndian(x, j) + [Drop(x, j) % 0x100]
  {
    LittleEndianSplit(x, j, 1);
    OneByte(Drop(x, j));
  }

  lemma NextByte(w: Word, j: nat, high: int, low: int)
    requires j < 4 && high == Digit(w, 2 * j + 1) && low == Digit(w, 2 * j)
    ensures HexOf(LittleEndian(w, j + 1)) == HexOf(LittleEndian(w, j)) + [HexDigit(high), HexDigit(low)]
  {
    DigitsOfByte(w, j);
    LittleEndianByte(w, j);
    HexOfAppend(LittleEndian(w, j), Drop(w, j) % 0x100);
  }

  /** The two digits of byte `j`, the high one first. */
  method ByteDigits(n: int, j: nat) returns (high: int, low: int)
    requires j < 4
    ensures high == Digit(U(n), 2 * j + 1) && low == Digit(U(n), 2 * j)
  {
    Nibble(n, 2 * j + 1);
    Nibble(n, 2 * j);
    high, low := JsBits(And, Shr(n, j * 8 + 4), 0x0F), JsBits(And, Shr(n, j * 8), 0x0F);
  }

  /** `rhex`: the bytes of a word, the lowest first, in hexadecimal. */
  method Rhex(n: int) returns (s: string)
    ensures s == HexOf(LittleEndian(U(n), 4))
  {
    s := "";
    ghost var w := U(n);
    var j := 0;
    while j < 4
      invariant 0 <= j <= 4 && s == HexOf(LittleEndian(w, j))
    {
      var high, low := ByteDigits(n, j);
      NextByte(w, j, high, low);
      s := s + [HexDigit(high), HexDigit(low)];
      j := j + 1;
    }
  }

  /** A, B, C and D in turn, section 3.5. */
  function Output(r: Regs): seq<Byte> {
    LittleEndian(r.a, 4) + LittleEndian(r.b, 4) + LittleEndian(r.c, 4) + LittleEndian(r.d, 4)
  }

  lemma {:induction false} HexOfConcat(s: seq<Byte>, t: seq<Byte>)
    ensures HexOf(s + t) == HexOf(s) + HexOf(t)
  {
    if s == [] {
      assert s + t == t;
    } else {
      assert (s + t)[1..] == s[1..] + t;
      HexOfConcat(s[1..], t);
    }
  }

  /** `md5`, and `hex` on the four numbers: the hexadecimal text of the digest. */
  method Md5(s: seq<Byte>) returns (text: string)
    ensures 8 * |s| < TWO32 ==> text == HexOf(Output(Digest(s)))
  {
    var x := Md51(s);
    ghost var q := QuadOf(x);
    text := "";
    ghost var bytes := [];
    var i := 0;
    while i < x.Length
      invariant 0 <= i <= 4 && QuadOf(x) == q
      invariant |bytes| == 4 * i && text == HexOf(bytes)
      invariant bytes == if i == 0 then [] else if i == 1 then LittleEndian(U(q.a), 4)
                         else if i == 2 then LittleEndian(U(q.a), 4) + LittleEndian(U(q.b), 4)
                         else if i == 3 then LittleEndian(U(q.a), 4) + LittleEndian(U(q.b), 4) + LittleEndian(U(q.c), 4)
                         else Output(RegsOf(q))
    {
      var part := Rhex(x[i]);
      HexOfConcat(bytes, LittleEndian(U(x[i]), 4));
      text := text + part;
      bytes := bytes + LittleEndian(U(x[i]), 4);
      i := i + 1;
    }
    if 8 * |s| < TWO32 {
      Md51IsDigest(s);
    }
  }
}
