/** `md5.js`: MD5 on JavaScript strings, one character for one byte. */
module Md5Js {
  import opened Md5Words
  import opened Md5Rfc

  /** The operator `>>>` and `<<` use the low five bits of their count only. */
  function Cmn(q: int, a: int, b: int, x: int, s: int, t: int): int {
    var a1 := Add32(Add32(a, q), Add32(x, t));
    Add32(JsBits(Or, Shl(a1, s % 32), Ushr(a1, (32 - s) % 32)), b)
  }

  function Ff(a: int, b: int, c: int, d: int, x: int, s: int, t: int): int {
    Cmn(JsBits(Or, JsBits(And, b, c), JsBits(And, JsNot(b), d)), a, b, x, s, t)
  }

  function Gg(a: int, b: int, c: int, d: int, x: int, s: int, t: int): int {
    Cmn(JsBits(Or, JsBits(And, b, d), JsBits(And, c, JsNot(d))), a, b, x, s, t)
  }

  function Hh(a: int, b: int, c: int, d: int, x: int, s: int, t: int): int {
    Cmn(JsBits(Xor, JsBits(Xor, b, c), d), a, b, x, s, t)
  }

  function Ii(a: int, b: int, c: int, d: int, x: int, s: int, t: int): int {
    Cmn(JsBits(Xor, c, JsBits(Or, b, JsNot(d))), a, b, x, s, t)
  }

  lemma AddIs(x: int, y: int)
    ensures U(Add32(x, y)) == Plus(U(x), U(y))
  {
    Add32Is(x, y);
  }

  lemma SumIs(a: int, q: int, x: int, t: int)
    ensures U(Add32(Add32(a, q), Add32(x, t))) == Plus(Plus(U(a), U(q)), Plus(U(x), U(t)))
  {
    AddIs(a, q);
    AddIs(x, t);
    AddIs(Add32(a, q), Add32(x, t));
  }

  lemma RotateIs(a: int, s: nat)
    requires 0 < s < 32
    ensures U(JsBits(Or, Shl(a, s), Ushr(a, 32 - s))) == Rotate(U(a), s)
  {
    RotationIs(a, s);
  }

  lemma PlusCommutes(x: Word, y: Word)
    ensures Plus(x, y) == Plus(y, x)
  {
  }

  lemma CountsIn32(s: int)
    requires 0 < s < 32
    ensures s % 32 == s && (32 - s) % 32 == 32 - s
  {
  }

  lemma RotateThenAdd(a1: int, s: int, b: int)
    requires 0 < s < 32
    ensures U(Add32(JsBits(Or, Shl(a1, s % 32), Ushr(a1, (32 - s) % 32)), b)) == Plus(U(b), Rotate(U(a1), s))
  {
    CountsIn32(s);
    RotateIs(a1, s);
    var rotated := JsBits(Or, Shl(a1, s), Ushr(a1, 32 - s));
    AddIs(rotated, b);
    PlusCommutes(U(rotated), U(b));
  }

  /** `cmn` is the operation of the standard, for whatever `q` mixes the registers. */
  lemma CmnIs(q: int, a: int, b: int, x: int, s: int, t: int)
    requires 0 < s < 32
    ensures U(Cmn(q, a, b, x, s, t)) ==
            Plus(U(b), Rotate(Plus(Plus(U(a), U(q)), Plus(U(x), U(t))), s))
  {
    SumIs(a, q, x, t);
    RotateThenAdd(Add32(Add32(a, q), Add32(x, t)), s, b);
  }

  lemma BitsIs(op: BitOp, x: int, y: int, p: Word, q: Word)
    requires U(x) == p && U(y) == q
    ensures U(JsBits(op, x, y)) == Word32(op, p, q)
  {
    WordOfBits(op, x, y);
  }

  lemma NotIs(x: int)
    ensures U(JsNot(x)) == Not(U(x))
  {
    WordOfNot(x);
  }

  lemma FfIs(a: int, b: int, c: int, d: int, x: int, s: nat, t: int)
    requires 0 < s < 32
    ensures U(Ff(a, b, c, d, x, s, t)) == Operation(0, U(a), U(b), U(c), U(d), U(x), s, U(t))
  {
    var wb, wc, wd := U(b), U(c), U(d);
    var l, r := JsBits(And, b, c), JsBits(And, JsNot(b), d);
    NotIs(b);
    BitsIs(And, b, c, wb, wc);
    BitsIs(And, JsNot(b), d, Not(wb), wd);
    BitsIs(Or, l, r, Word32(And, wb, wc), Word32(And, Not(wb), wd));
    CmnIs(JsBits(Or, l, r), a, b, x, s, t);
  }

  lemma GgIs(a: int, b: int, c: int, d: int, x: int, s: nat, t: int)
    requires 0 < s < 32
    ensures U(Gg(a, b, c, d, x, s, t)) == Operation(1, U(a), U(b), U(c), U(d), U(x), s, U(t))
  {
    var wb, wc, wd := U(b), U(c), U(d);
    var l, r := JsBits(And, b, d), JsBits(And, c, JsNot(d));
    NotIs(d);
    BitsIs(And, b, d, wb, wd);
    BitsIs(And, c, JsNot(d), wc, Not(wd));
    BitsIs(Or, l, r, Word32(And, wb, wd), Word32(And, wc, Not(wd)));
    CmnIs(JsBits(Or, l, r), a, b, x, s, t);
  }

  lemma HhIs(a: int, b: int, c: int, d: int, x: int, s: nat, t: int)
    requires 0 < s < 32
    ensures U(Hh(a, b, c, d, x, s, t)) == Operation(2, U(a), U(b), U(c), U(d), U(x), s, U(t))
  {
    var wb, wc, wd := U(b), U(c), U(d);
    BitsIs(Xor, b, c, wb, wc);
    BitsIs(Xor, JsBits(Xor, b, c), d, Word32(Xor, wb, wc), wd);
    CmnIs(JsBits(Xor, JsBits(Xor, b, c), d), a, b, x, s, t);
  }

  lemma IiIs(a: int, b: int, c: int, d: int, x: int, s: nat, t: int)
    requires 0 < s < 32
    ensures U(Ii(a, b, c, d, x, s, t)) == Operation(3, U(a), U(b), U(c), U(d), U(x), s, U(t))
  {
    var wb, wc, wd := U(b), U(c), U(d);
    var r := JsBits(Or, b, JsNot(d));
    NotIs(d);
    BitsIs(Or, b, JsNot(d), wb, Not(wd));
    BitsIs(Xor, c, r, wc, Word32(Or, wb, Not(wd)));
    CmnIs(JsBits(Xor, c, r), a, b, x, s, t);
  }

  // ----- one block -----

  function RegsOf(q: Quad): Regs { Regs(U(q.a), U(q.b), U(q.c), U(q.d)) }

  function WordsOf(k: seq<int>): Block
    requires |k| == 16
  {
    seq(16, i requires 0 <= i < 16 => U(k[i]))
  }

  datatype Quad = Quad(a: int, b: int, c: int, d: int)

  type Mixer = (int, int, int, int, int, int, int) -> int

  /** Line `i` of `md5cycle`, if its word, shift and constant are those of the standard
      (the constant as a signed number) and its registers are in the right roles. */
  function LineStep(i: nat, f: Mixer, q: Quad, k: seq<int>): Quad
    requires i < 64 && |k| == 16
  {
    Quad(q.d, f(q.a, q.b, q.c, q.d, k[Index(i)], Shift(i), S(T(i))), q.b, q.c)
  }

  function LineFour(i: nat, f: Mixer, q: Quad, k: seq<int>): Quad
    requires i + 4 <= 64 && |k| == 16
  {
    LineStep(i + 3, f, LineStep(i + 2, f, LineStep(i + 1, f, LineStep(i, f, q, k), k), k), k)
  }

  /** `n` lines in a row. */
  function LineRun(i: nat, n: nat, f: Mixer, q: Quad, k: seq<int>): Quad
    requires i + n <= 64 && |k| == 16
    decreases n, q
  {
    if n == 0 then q else LineStep(i + n - 1, f, LineRun(i, n - 1, f, q, k), k)
  }

  lemma LineRunFour(i: nat, n: nat, f: Mixer, q: Quad, k: seq<int>)
    requires i + n + 4 <= 64 && |k| == 16
    ensures LineRun(i, n + 4, f, q, k) == LineFour(i + n, f, LineRun(i, n, f, q, k), k)
  {
    assert LineRun(i, n + 1, f, q, k) == LineStep(i + n, f, LineRun(i, n, f, q, k), k);
    assert LineRun(i, n + 2, f, q, k) == LineStep(i + n + 1, f, LineRun(i, n + 1, f, q, k), k);
    assert LineRun(i, n + 3, f, q, k) == LineStep(i + n + 2, f, LineRun(i, n + 2, f, q, k), k);
  }

  // The 64 lines of `md5cycle`, for any mixing functions: each one has the word of the
  // block, the shift and the constant that its place in the standard asks for.

  method FirstLines(a0: int, b0: int, c0: int, d0: int, k: seq<int>, ff: Mixer) returns (a: int, b: int, c: int, d: int)
    requires |k| == 16
    ensures Quad(a, b, c, d) == LineRun(0, 16, ff, Quad(a0, b0, c0, d0), k)
  {
    a, b, c, d := a0, b0, c0, d0;
    ghost var q := Quad(a, b, c, d);
    a := ff(a, b, c, d, k[0], 7, -680876936);
    d := ff(d, a, b, c, k[1], 12, -389564586);
    c := ff(c, d, a, b, k[2], 17, 606105819);
    b := ff(b, c, d, a, k[3], 22, -1044525330);
    LineRunFour(0, 0, ff, q, k);
    assert Quad(a, b, c, d) == LineRun(0, 4, ff, q, k);
    a := ff(a, b, c, d, k[4], 7, -176418897);
    d := ff(d, a, b, c, k[5], 12, 1200080426);
    c := ff(c, d, a, b, k[6], 17, -1473231341);
    b := ff(b, c, d, a, k[7], 22, -45705983);
    LineRunFour(0, 4, ff, q, k);
    assert Quad(a, b, c, d) == LineRun(0, 8, ff, q, k);
    a := ff(a, b, c, d, k[8], 7, 1770035416);
    d := ff(d, a, b, c, k[9], 12, -1958414417);
    c := ff(c, d, a, b, k[10], 17, -42063);
    b := ff(b, c, d, a, k[11], 22, -1990404162);
    LineRunFour(0, 8, ff, q, k);
    assert Quad(a, b, c, d) == LineRun(0, 12, ff, q, k);
    a := ff(a, b, c, d, k[12], 7, 1804603682);
    d := ff(d, a, b, c, k[13], 12, -40341101);
    c := ff(c, d, a, b, k[14], 17, -1502002290);
    b := ff(b, c, d, a, k[15], 22, 1236535329);
    LineRunFour(0, 12, ff, q, k);
    assert Quad(a, b, c, d) == LineRun(0, 16, ff, q, k);
  }

  method SecondLines(a0: int, b0: int, c0: int, d0: int, k: seq<int>, gg: Mixer)
    returns (a: int, b: int, c: int, d: int)
    requires |k| == 16
    ensures Quad(a, b, c, d) == LineRun(16, 16, gg, Quad(a0, b0, c0, d0), k)
  {
    a, b, c, d := a0, b0, c0, d0;
    ghost var q := Quad(a, b, c, d);
    a := gg(a, b, c, d, k[1], 5, -165796510);
    d := gg(d, a, b, c, k[6], 9, -1069501632);
    c := gg(c, d, a, b, k[11], 14, 643717713);
    b := gg(b, c, d, a, k[0], 20, -373897302);
    LineRunFour(16, 0, gg, q, k);
    assert Quad(a, b, c, d) == LineRun(16, 4, gg, q, k);
    a := gg(a, b, c, d, k[5], 5, -701558691);
    d := gg(d, a, b, c, k[10], 9, 38016083);
    c := gg(c, d, a, b, k[15], 14, -660478335);
    b := gg(b, c, d, a, k[4], 20, -405537848);
    LineRunFour(16, 4, gg, q, k);
    assert Quad(a, b, c, d) == LineRun(16, 8, gg, q, k);
    a := gg(a, b, c, d, k[9], 5, 568446438);
    d := gg(d, a, b, c, k[14], 9, -1019803690);
    c := gg(c, d, a, b, k[3], 14, -187363961);
    b := gg(b, c, d, a, k[8], 20, 1163531501);
    LineRunFour(16, 8, gg, q, k);
    assert Quad(a, b, c, d) == LineRun(16, 12, gg, q, k);
    a := gg(a, b, c, d, k[13], 5, -1444681467);
    d := gg(d, a, b, c, k[2], 9, -51403784);
    c := gg(c, d, a, b, k[7], 14, 1735328473);
    b := gg(b, c, d, a, k[12], 20, -1926607734);
    LineRunFour(16, 12, gg, q, k);
    assert Quad(a, b, c, d) == LineRun(16, 16, gg, q, k);
  }

  method ThirdLines(a0: int, b0: int, c0: int, d0: int, k: seq<int>, hh: Mixer) returns (a: int, b: int, c: int, d: int)
    requires |k| == 16
    ensures Quad(a, b, c, d) == LineRun(32, 16, hh, Quad(a0, b0, c0, d0), k)
  {
    a, b, c, d := a0, b0, c0, d0;
    ghost var q := Quad(a, b, c, d);
    a := hh(a, b, c, d, k[5], 4, -378558);
    d := hh(d, a, b, c, k[8], 11, -2022574463);
    c := hh(c, d, a, b, k[11], 16, 1839030562);
    b := hh(b, c, d, a, k[14], 23, -35309556);
    LineRunFour(32, 0, hh, q, k);
    assert Quad(a, b, c, d) == LineRun(32, 4, hh, q, k);
    a := hh(a, b, c, d, k[1], 4, -1530992060);
    d := hh(d, a, b, c, k[4], 11, 1272893353);
    c := hh(c, d, a, b, k[7], 16, -155497632);
    b := hh(b, c, d, a, k[10], 23, -1094730640);
    LineRunFour(32, 4, hh, q, k);
    assert Quad(a, b, c, d) == LineRun(32, 8, hh, q, k);
    a := hh(a, b, c, d, k[13], 4, 681279174);
    d := hh(d, a, b, c, k[0], 11, -358537222);
    c := hh(c, d, a, b, k[3], 16, -722521979);
    b := hh(b, c, d, a, k[6], 23, 76029189);
    LineRunFour(32, 8, hh, q, k);
    assert Quad(a, b, c, d) == LineRun(32, 12, hh, q, k);
    a := hh(a, b, c, d, k[9], 4, -640364487);
    d := hh(d, a, b, c, k[12], 11, -421815835);
    c := hh(c, d, a, b, k[15], 16, 530742520);
    b := hh(b, c, d, a, k[2], 23, -995338651);
    LineRunFour(32, 12, hh, q, k);
    assert Quad(a, b, c, d) == LineRun(32, 16, hh, q, k);
  }

  method FourthLines(a0: int, b0: int, c0: int, d0: int, k: seq<int>, ii: Mixer)
    returns (a: int, b: int, c: int, d: int)
    requires |k| == 16
    ensures Quad(a, b, c, d) == LineRun(48, 16, ii, Quad(a0, b0, c0, d0), k)
  {
    a, b, c, d := a0, b0, c0, d0;
    ghost var q := Quad(a, b, c, d);
    a := ii(a, b, c, d, k[0], 6, -198630844);
    d := ii(d, a, b, c, k[7], 10, 1126891415);
    c := ii(c, d, a, b, k[14], 15, -1416354905);
    b := ii(b, c, d, a, k[5], 21, -57434055);
    LineRunFour(48, 0, ii, q, k);
    assert Quad(a, b, c, d) == LineRun(48, 4, ii, q, k);
    a := ii(a, b, c, d, k[12], 6, 1700485571);
    d := ii(d, a, b, c, k[3], 10, -1894986606);
    c := ii(c, d, a, b, k[10], 15, -1051523);
    b := ii(b, c, d, a, k[1], 21, -2054922799);
    LineRunFour(48, 4, ii, q, k);
    assert Quad(a, b, c, d) == LineRun(48, 8, ii, q, k);
    a := ii(a, b, c, d, k[8], 6, 1873313359);
    d := ii(d, a, b, c, k[15], 10, -30611744);
    c := ii(c, d, a, b, k[6], 15, -1560198380);
    b := ii(b, c, d, a, k[13], 21, 1309151649);
    LineRunFour(48, 8, ii, q, k);
    assert Quad(a, b, c, d) == LineRun(48, 12, ii, q, k);
    a := ii(a, b, c, d, k[4], 6, -145523070);
    d := ii(d, a, b, c, k[11], 10, -1120210379);
    c := ii(c, d, a, b, k[2], 15, 718787259);
    b := ii(b, c, d, a, k[9], 21, -343485551);
    LineRunFour(48, 12, ii, q, k);
    assert Quad(a, b, c, d) == LineRun(48, 16, ii, q, k);
  }

  // ----- the lines are the operations of the standard -----

  /** `f` computes the word that operation `n` of `op` does. */
  ghost predicate IsMixer(f: Mixer, n: nat, op: Operator) {
    forall a, b, c, d, x, s, t {:trigger f(a, b, c, d, x, s, t)} | 0 < s < 32 ::
      U(f(a, b, c, d, x, s, t)) == op(n, U(a), U(b), U(c), U(d), U(x), s, U(t))
  }

  lemma MixersAre()
    ensures IsMixer(Ff, 0, OPERATION) && IsMixer(Gg, 1, OPERATION)
    ensures IsMixer(Hh, 2, OPERATION) && IsMixer(Ii, 3, OPERATION)
  {
    forall a, b, c, d, x, s, t | 0 < s < 32
      ensures U(Ff(a, b, c, d, x, s, t)) == OPERATION(0, U(a), U(b), U(c), U(d), U(x), s, U(t))
      ensures U(Gg(a, b, c, d, x, s, t)) == OPERATION(1, U(a), U(b), U(c), U(d), U(x), s, U(t))
      ensures U(Hh(a, b, c, d, x, s, t)) == OPERATION(2, U(a), U(b), U(c), U(d), U(x), s, U(t))
      ensures U(Ii(a, b, c, d, x, s, t)) == OPERATION(3, U(a), U(b), U(c), U(d), U(x), s, U(t))
    {
      FfIs(a, b, c, d, x, s, t);
      GgIs(a, b, c, d, x, s, t);
      HhIs(a, b, c, d, x, s, t);
      IiIs(a, b, c, d, x, s, t);
    }
  }

  lemma LineStepIs(i: nat, round: nat, f: Mixer, q: Quad, k: seq<int>, op: Operator)
    requires i < 64 && round == i / 16 && |k| == 16 && IsMixer(f, round, op)
    ensures RegsOf(LineStep(i, f, q, k)) == Step(i, RegsOf(q), WordsOf(k), op)
  {
    var x := k[Index(i)];
    assert WordsOf(k)[Index(i)] == U(x);
    WordOfSigned(T(i));
    SmallWord(T(i));
    assert U(f(q.a, q.b, q.c, q.d, x, Shift(i), S(T(i))))
        == op(round, U(q.a), U(q.b), U(q.c), U(q.d), U(x), Shift(i), U(S(T(i))));
  }

  lemma RoundOf(round: nat, n: nat)
    requires 0 < n <= 16
    ensures (16 * round + n - 1) / 16 == round
  {
  }

  lemma {:induction false} LineRunIs(round: nat, n: nat, f: Mixer, q: Quad, k: seq<int>, r: Regs, op: Operator)
    requires round < 4 && n <= 16 && |k| == 16 && IsMixer(f, round, op)
    requires RegsOf(q) == Steps(16 * round, r, WordsOf(k), op)
    ensures RegsOf(LineRun(16 * round, n, f, q, k)) == Steps(16 * round + n, r, WordsOf(k), op)
    decreases n
  {
    if n > 0 {
      LineRunIs(round, n - 1, f, q, k, r, op);
      RoundOf(round, n);
      var i := 16 * round + n - 1;
      var p := LineRun(16 * round, n - 1, f, q, k);
      LineStepIs(i, round, f, p, k, op);
      assert LineRun(16 * round, n, f, q, k) == LineStep(i, f, p, k);
      assert Steps(i + 1, r, WordsOf(k), op) == Step(i, Steps(i, r, WordsOf(k), op), WordsOf(k), op);
    }
  }

  method AllLines(a0: int, b0: int, c0: int, d0: int, k: seq<int>, ff: Mixer, gg: Mixer, hh: Mixer, ii: Mixer,
                  ghost op: Operator)
    returns (a: int, b: int, c: int, d: int)
    requires |k| == 16
    requires IsMixer(ff, 0, op) && IsMixer(gg, 1, op) && IsMixer(hh, 2, op) && IsMixer(ii, 3, op)
    ensures RegsOf(Quad(a, b, c, d)) == Steps(64, RegsOf(Quad(a0, b0, c0, d0)), WordsOf(k), op)
  {
    ghost var r := RegsOf(Quad(a0, b0, c0, d0));
    LineRunIs(0, 16, ff, Quad(a0, b0, c0, d0), k, r, op);
    a, b, c, d := FirstLines(a0, b0, c0, d0, k, ff);
    LineRunIs(1, 16, gg, Quad(a, b, c, d), k, r, op);
    a, b, c, d := SecondLines(a, b, c, d, k, gg);
    LineRunIs(2, 16, hh, Quad(a, b, c, d), k, r, op);
    a, b, c, d := ThirdLines(a, b, c, d, k, hh);
    LineRunIs(3, 16, ii, Quad(a, b, c, d), k, r, op);
    a, b, c, d := FourthLines(a, b, c, d, k, ii);
  }

  lemma AddQuads(p: Quad, q: Quad)
    ensures RegsOf(Quad(Add32(p.a, q.a), Add32(p.b, q.b), Add32(p.c, q.c), Add32(p.d, q.d)))
            == PlusRegs(RegsOf(p), RegsOf(q))
  {
    AddIs(p.a, q.a);
    AddIs(p.b, q.b);
    AddIs(p.c, q.c);
    AddIs(p.d, q.d);
  }

  function QuadOf(x: array<int>): Quad
    requires x.Length == 4
    reads x
  {
    Quad(x[0], x[1], x[2], x[3])
  }

  /** `md5cycle` folds one block into the four numbers of `x` as section 3.4 does. */
  method Md5cycle(x: array<int>, k: seq<int>)
    requires x.Length == 4 && |k| == 16
    modifies x
    ensures RegsOf(QuadOf(x)) == Compress(RegsOf(old(QuadOf(x))), WordsOf(k))
  {
    MixersAre();
    var a, b, c, d := AllLines(x[0], x[1], x[2], x[3], k, Ff, Gg, Hh, Ii, OPERATION);
    AddQuads(Quad(a, b, c, d), QuadOf(x));
    x[0] := Add32(a, x[0]);
    x[1] := Add32(b, x[1]);
    x[2] := Add32(c, x[2]);
    x[3] := Add32(d, x[3]);
  }
}
