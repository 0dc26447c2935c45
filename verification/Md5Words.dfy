/** JavaScript numbers used as 32-bit words, and the words of RFC 1321 they stand for.
    A JavaScript number here is an integer (all of them stay far below 2^53, so none is
    rounded); `U` and `S` are the ToUint32 and ToInt32 conversions every bit operator applies. */
module Md5Words {
  const TWO32 := 0x1_0000_0000

  type Word = w: int | 0 <= w < TWO32

  function U(x: int): Word { x % TWO32 }

  function S(x: int): int {
    if U(x) < 0x8000_0000 then U(x) else U(x) - TWO32
  }

  function Pow2(n: nat): (p: nat)
    ensures p > 0
  {
    if n == 0 then 1 else 2 * Pow2(n - 1)
  }

  // ----- bit by bit -----

  datatype BitOp = And | Or | Xor

  function OnBits(op: BitOp, p: bool, q: bool): bool {
    match op
    case And => p && q
    case Or => p || q
    case Xor => p != q
  }

  /** The low `n` bits of `a` and `b`, combined position by position. */
  function Bits(op: BitOp, a: nat, b: nat, n: nat): (r: nat)
    ensures r < Pow2(n)
  {
    if n == 0 then 0
    else (if OnBits(op, a % 2 == 1, b % 2 == 1) then 1 else 0) + 2 * Bits(op, a / 2, b / 2, n - 1)
  }

  function Word32(op: BitOp, a: Word, b: Word): Word {
    Pow2Is32();
    Bits(op, a, b, 32)
  }

  lemma Pow2Is32()
    ensures Pow2(16) == 0x1_0000 && Pow2(32) == TWO32
  {
    assert Pow2(8) == 256;
    assert Pow2(16) == 256 * Pow2(8) by { Pow2Add(8, 8); }
    assert Pow2(32) == Pow2(16) * Pow2(16) by { Pow2Add(16, 16); }
  }

  lemma {:induction false} Pow2Add(m: nat, n: nat)
    ensures Pow2(m + n) == Pow2(m) * Pow2(n)
  {
    if m > 0 {
      Pow2Add(m - 1, n);
    }
  }

  /** A word moved up by `k` bits; what leaves at the top is lost. */
  function Up(w: Word, k: nat): Word {
    if k == 0 then w else (2 * Up(w, k - 1)) % TWO32
  }

  /** A word moved down by `k` bits. */
  function Down(w: Word, k: nat): Word {
    if k == 0 then w else Down(w, k - 1) / 2
  }

  // ----- the operators of JavaScript -----

  function JsBits(op: BitOp, x: int, y: int): int { S(Word32(op, U(x), U(y))) }

  function JsNot(x: int): int { -1 - S(x) }

  function Shl(x: int, k: nat): int { S(Up(U(x), k)) }

  function Ushr(x: int, k: nat): int { Down(U(x), k) }

  /** The sign bit is copied in: this is division rounding down. */
  function Shr(x: int, k: nat): int {
    if k == 0 then S(x) else Shr(x, k - 1) / 2
  }

  /** The first `add32` of the file. */
  function Add32(a: int, b: int): int { JsBits(And, a + b, 0xFFFF_FFFF) }

  /** The second one, for engines on which the first gives a wrong digest. */
  function Add32Split(x: int, y: int): int {
    var lsw := Low16(x) + Low16(y);
    var msw := HighSum(x, y, lsw);
    Join(msw, Low16(lsw))
  }

  function Low16(x: int): int { JsBits(And, x, 0xFFFF) }

  function HighSum(x: int, y: int, lsw: int): int { Shr(x, 16) + Shr(y, 16) + Shr(lsw, 16) }

  function Join(msw: int, low: int): int { JsBits(Or, Shl(msw, 16), low) }

  // ----- conversions -----

  lemma WordOfSigned(x: int)
    ensures U(S(x)) == U(x) && -0x8000_0000 <= S(x) < 0x8000_0000
  {
  }

  lemma SameWord(x: int, y: int)
    requires U(x) == U(y)
    ensures S(x) == S(y)
  {
  }

  lemma WordOfNot(x: int)
    ensures U(JsNot(x)) == TWO32 - 1 - U(x)
  {
  }

  lemma WordOfSum(a: int, b: int)
    ensures U(a + b) == (U(a) + U(b)) % TWO32
  {
  }

  lemma WordOfBits(op: BitOp, x: int, y: int)
    ensures U(JsBits(op, x, y)) == Word32(op, U(x), U(y))
  {
    WordOfSigned(Word32(op, U(x), U(y)));
  }

  lemma SignedBits(op: BitOp, x: int, y: int, p: Word, q: Word)
    requires U(x) == p && U(y) == q
    ensures JsBits(op, x, y) == S(Word32(op, p, q))
  {
  }

  lemma WordOfShl(x: int, k: nat)
    ensures U(Shl(x, k)) == Up(U(x), k)
  {
    WordOfSigned(Up(U(x), k));
  }

  lemma WordOfUshr(x: int, k: nat)
    ensures U(Ushr(x, k)) == Down(U(x), k)
  {
  }

  // ----- arithmetic of the shifts -----

  lemma SmallMultiple(d: int, t: int)
    requires d > 0 && -d < d * t < d
    ensures t == 0
  {
    assert t >= 1 ==> d * t >= d * 1;
    assert t <= -1 ==> d * t <= d * -1;
  }

  lemma DivModUnique(a: int, d: int, q: int, r: int)
    requires 0 <= r < d && a == d * q + r
    ensures a / d == q && a % d == r
  {
    var q', r' := a / d, a % d;
    assert d * (q - q') == r' - r;
    SmallMultiple(d, q - q');
  }

  lemma HalfOfQuotient(a: int, p: int)
    requires p > 0
    ensures a / p / 2 == a / (2 * p)
  {
    var d := a / p;
    assert a == p * d + a % p;
    assert p * d == (2 * p) * (d / 2) + p * (d % 2);
    DivModUnique(a, 2 * p, d / 2, a % p + p * (d % 2));
  }

  lemma {:induction false} DownIs(w: Word, k: nat)
    ensures Down(w, k) == w / Pow2(k)
  {
    if k > 0 {
      DownIs(w, k - 1);
      HalfOfQuotient(w, Pow2(k - 1));
    }
  }

  lemma DoubleMod(x: int)
    ensures (2 * (x % TWO32)) % TWO32 == (2 * x) % TWO32
  {
  }

  lemma {:induction false} UpIs(w: Word, k: nat)
    ensures Up(w, k) == (w * Pow2(k)) % TWO32
  {
    if k > 0 {
      UpIs(w, k - 1);
      DoubleMod(w * Pow2(k - 1));
      assert w * Pow2(k) == 2 * (w * Pow2(k - 1));
    } else {
      assert w * Pow2(0) == w;
    }
  }

  lemma RotateParts(w: nat, p: nat, q: nat)
    requires p > 0 && q > 0 && w < q * p
    ensures (w * p) % (q * p) == (w % q) * p
    ensures w / q < p && (w % q) * p + w / q < q * p
  {
    var hi, lo := w / q, w % q;
    assert w == q * hi + lo;
    HighPart(hi, lo, p, q);
    assert w * p == (q * p) * hi + lo * p;
    DivModUnique(w * p, q * p, hi, lo * p);
  }

  lemma HighPart(hi: nat, lo: nat, p: nat, q: nat)
    requires lo < q && q * hi + lo < q * p
    ensures hi < p && lo * p + hi < q * p
  {
    assert hi >= p ==> q * hi >= q * p;
    assert lo * p <= (q - 1) * p;
    assert (q - 1) * p + p == q * p;
  }

  // ----- masks and disjoint bits -----

  lemma {:induction false} AndMask(a: nat, k: nat, n: nat)
    requires k <= n
    ensures Bits(And, a, Pow2(k) - 1, n) == a % Pow2(k)
  {
    AndOnes(a, k, n, Pow2(k));
  }

  lemma {:induction false} AndOnes(a: nat, k: nat, n: nat, p: nat)
    requires k <= n && p == Pow2(k)
    ensures Bits(And, a, p - 1, n) == a % p
    decreases n
  {
    if n == 0 {
      assert a % 1 == 0;
    } else if k == 0 {
      AndOnes(a / 2, 0, n - 1, p);
      assert a % 1 == 0 && (a / 2) % 1 == 0;
    } else {
      var half := Pow2(k - 1);
      assert p == 2 * half;
      AndOnes(a / 2, k - 1, n - 1, half);
      assert (p - 1) % 2 == 1 && (p - 1) / 2 == half - 1;
      ModTwice(a, half);
    }
  }

  lemma ModTwice(a: nat, half: nat)
    requires half > 0
    ensures a % (2 * half) == a % 2 + 2 * (a / 2 % half)
  {
    var q, r := a / 2 / half, a / 2 % half;
    assert a / 2 == q * half + r;
    assert a == (2 * half) * q + (a % 2 + 2 * r);
    DivModUnique(a, 2 * half, q, a % 2 + 2 * r);
  }

  lemma {:induction false} OrDisjoint(x: nat, k: nat, y: nat, n: nat)
    requires y < Pow2(k) && x * Pow2(k) + y < Pow2(n)
    ensures Bits(Or, x * Pow2(k), y, n) == x * Pow2(k) + y
    decreases n
  {
    if n == 0 {
    } else if k == 0 {
      assert y == 0 && Pow2(0) == 1 && x * Pow2(0) == x;
      OrZero(x, n);
    } else {
      var high := x * Pow2(k - 1);
      assert x * Pow2(k) == 2 * high;
      OrDisjoint(x, k - 1, y / 2, n - 1);
      OrStep(high, y, n);
    }
  }

  lemma OrStep(high: nat, y: nat, n: nat)
    requires n > 0 && Bits(Or, high, y / 2, n - 1) == high + y / 2
    ensures Bits(Or, 2 * high, y, n) == 2 * high + y
  {
    assert (2 * high) % 2 == 0 && (2 * high) / 2 == high;
  }

  lemma {:induction false} OrZero(x: nat, n: nat)
    requires x < Pow2(n)
    ensures Bits(Or, x, 0, n) == x
  {
    if n > 0 {
      OrZero(x / 2, n - 1);
    }
  }

  // ----- rotation -----

  /** The circular shift of RFC 1321: the bits that leave at the top come back at the bottom. */
  function RotL(w: Word, s: nat): int
    requires s <= 32
  {
    Up(w, s) + Down(w, 32 - s)
  }

  lemma OrRotated(w: Word, s: nat)
    requires 0 < s < 32
    ensures RotL(w, s) < TWO32
    ensures Word32(Or, Up(w, s), Down(w, 32 - s)) == RotL(w, s)
  {
    UpIs(w, s);
    DownIs(w, 32 - s);
    Pow2Is32();
    Pow2Add(32 - s, s);
    var p, q := Pow2(s), Pow2(32 - s);
    RotateParts(w, p, q);
    OrDisjoint(w % q, s, w / q, 32);
  }

  /** `(a << s) | (a >>> (32 - s))` rotates the word of `a`. */
  lemma RotationIs(a: int, s: nat)
    requires 0 < s < 32
    ensures RotL(U(a), s) < TWO32
    ensures U(JsBits(Or, Shl(a, s), Ushr(a, 32 - s))) == RotL(U(a), s)
  {
    OrRotated(U(a), s);
    WordOfBits(Or, Shl(a, s), Ushr(a, 32 - s));
    WordOfShl(a, s);
    WordOfUshr(a, 32 - s);
  }

  // ----- addition -----

  lemma AllOnes(w: Word)
    ensures Word32(And, w, 0xFFFF_FFFF) == w
  {
    Pow2Is32();
    AndOnes(w, 32, 32, TWO32);
    SmallWord(w);
  }

  lemma Masked(x: int, ones: Word)
    requires ones == 0xFFFF_FFFF
    ensures JsBits(And, x, ones) == S(x)
  {
    AllOnes(U(x));
    SmallWord(ones);
    SignedBits(And, x, ones, U(x), ones);
    SameWord(U(x), x);
  }

  /** The first addition is the sum modulo 2^32, as a signed number. */
  lemma Add32Is(a: int, b: int)
    ensures Add32(a, b) == S(a + b) && U(Add32(a, b)) == (U(a) + U(b)) % TWO32
  {
    Masked(a + b, 0xFFFF_FFFF);
    WordOfSigned(a + b);
    WordOfSum(a, b);
  }

  lemma SameLowHalf(h: int)
    ensures U(h) % 0x1_0000 == h % 0x1_0000
  {
  }

  lemma SmallWord(x: int)
    ensures 0 <= x < TWO32 ==> U(x) == x
    ensures 0 <= x < 0x8000_0000 ==> S(x) == x
  {
  }

  lemma AndLow16(x: int)
    ensures Low16(x) == x % 0x1_0000
  {
    var w, r := U(x), x % 0x1_0000;
    SameLowHalf(x);
    assert Bits(And, w, 0xFFFF, 32) == r by {
      Pow2Is32();
      AndMask(w, 16, 32);
    }
    SmallWord(0xFFFF);
    SmallWord(r);
    SignedBits(And, x, 0xFFFF, w, 0xFFFF);
  }

  /** A number with high half `h` and low half `l`, cut down to a word. */
  lemma HalvesOfWord(h: int, l: int)
    requires 0 <= l < 0x1_0000
    ensures U(h * 0x1_0000 + l) == (h % 0x1_0000) * 0x1_0000 + l
  {
    var r := (h % 0x1_0000) * 0x1_0000 + l;
    assert h == (h / 0x1_0000) * 0x1_0000 + h % 0x1_0000;
    DivModUnique(h * 0x1_0000 + l, TWO32, h / 0x1_0000, r);
  }

  lemma UpHalf(h: int)
    ensures Up(U(h), 16) == (h % 0x1_0000) * 0x1_0000
  {
    var w, p := U(h), Pow2(16);
    UpIs(w, 16);
    assert p == 0x1_0000 by { Pow2Is32(); }
    HalvesOfWord(w, 0);
    SameLowHalf(h);
  }

  lemma OrHalves(h: int, l: int)
    requires 0 <= h < 0x1_0000 && 0 <= l < 0x1_0000
    ensures Word32(Or, h * 0x1_0000, l) == h * 0x1_0000 + l
  {
    Pow2Is32();
    OrDisjoint(h, 16, l, 32);
  }

  lemma ShlHalf(h: int, p: int)
    requires p == (h % 0x1_0000) * 0x1_0000
    ensures U(Shl(h, 16)) == p
  {
    UpHalf(h);
    WordOfShl(h, 16);
  }

  lemma OrShifted(h: int, l: int, p: Word)
    requires 0 <= l < 0x1_0000 && p == (h % 0x1_0000) * 0x1_0000
    ensures JsBits(Or, Shl(h, 16), l) == S(p + l)
  {
    ShlHalf(h, p);
    SmallWord(l);
    var shifted := Shl(h, 16);
    SignedBits(Or, shifted, l, p, l);
    OrHalves(h % 0x1_0000, l);
  }

  /** Putting two halves together with `<<` and `|`. */
  lemma JoinHalves(h: int, l: int)
    requires 0 <= l < 0x1_0000
    ensures JsBits(Or, Shl(h, 16), l) == S(h * 0x1_0000 + l)
  {
    var p := (h % 0x1_0000) * 0x1_0000;
    OrShifted(h, l, p);
    HalvesOfWord(h, l);
    SmallWord(p + l);
    SameWord(p + l, h * 0x1_0000 + l);
  }

  lemma {:induction false} ShrIs(x: int, k: nat)
    ensures Shr(x, k) == S(x) / Pow2(k)
  {
    if k > 0 {
      ShrIs(x, k - 1);
      HalfOfQuotient(S(x), Pow2(k - 1));
    }
  }

  lemma Halves(x: int)
    ensures Shr(x, 16) == S(x) / 0x1_0000 && S(x) == Shr(x, 16) * 0x1_0000 + x % 0x1_0000
  {
    ShrIs(x, 16);
    Pow2Is32();
    assert S(x) % 0x1_0000 == x % 0x1_0000;
  }

  lemma CarrySum(x: int, y: int, lsw: int, msw: int)
    requires lsw == x % 0x1_0000 + y % 0x1_0000
    requires msw == HighSum(x, y, lsw)
    ensures msw * 0x1_0000 + lsw % 0x1_0000 == S(x) + S(y)
  {
    Halves(x);
    Halves(y);
    Halves(lsw);
    SmallWord(lsw);
    assert lsw == Shr(lsw, 16) * 0x1_0000 + lsw % 0x1_0000;
  }

  lemma SplitForm(x: int, y: int, lowX: int, lowY: int, low: int)
    requires lowX == Low16(x) && lowY == Low16(y) && low == Low16(lowX + lowY)
    ensures Add32Split(x, y) == Join(HighSum(x, y, lowX + lowY), low)
  {
  }

  lemma SplitHalves(x: int, y: int) returns (msw: int, low: int)
    ensures 0 <= low < 0x1_0000 && msw * 0x1_0000 + low == S(x) + S(y)
    ensures Add32Split(x, y) == Join(msw, low)
  {
    var lowX, lowY := x % 0x1_0000, y % 0x1_0000;
    msw, low := HighSum(x, y, lowX + lowY), (lowX + lowY) % 0x1_0000;
    AndLow16(x);
    AndLow16(y);
    AndLow16(lowX + lowY);
    SplitForm(x, y, lowX, lowY, low);
    CarrySum(x, y, lowX + lowY, msw);
  }

  /** Adding low halves, high halves and the carry is adding: the two `add32` agree. */
  lemma Add32SplitIs(x: int, y: int)
    ensures Add32Split(x, y) == Add32(x, y)
  {
    var msw, low := SplitHalves(x, y);
    JoinHalves(msw, low);
    SumOfSigned(x, y);
    Add32Is(x, y);
  }

  lemma SumOfSigned(x: int, y: int)
    ensures S(S(x) + S(y)) == S(x + y)
  {
    WordOfSum(S(x), S(y));
    WordOfSum(x, y);
    WordOfSigned(x);
    WordOfSigned(y);
    SameWord(S(x) + S(y), x + y);
  }
}
