/** The table of MD5 is that of the sine. */
module Md5Sine {
  import opened Md5Rfc

  // ----- sine and cosine of whole numbers -----

  /** One over the factorial. */
  function Inverse(n: nat): real {
    if n == 0 then 1.0 else Inverse(n - 1) / n as real
  }

  /** The first `m` terms of the series of the sine at 1: 1 - 1/3! + 1/5! - ... */
  function SineSum(m: nat): real {
    if m == 0 then 0.0
    else if m % 2 == 1 then SineSum(m - 1) + Inverse(2 * m - 1)
    else SineSum(m - 1) - Inverse(2 * m - 1)
  }

  /** Those of the cosine at 1: 1 - 1/2! + 1/4! - ... */
  function CosineSum(m: nat): real {
    if m == 0 then 0.0
    else if m % 2 == 1 then CosineSum(m - 1) + Inverse(2 * m - 2)
    else CosineSum(m - 1) - Inverse(2 * m - 2)
  }

  /** What sine and cosine of the whole numbers, in radians, are: the sums of their series at 1,
      which lie between any two partial sums in a row, and elsewhere what the addition theorem
      makes of that. */
  ghost predicate SineAndCosine(sine: nat -> real, cosine: nat -> real) {
    && sine(0) == 0.0 && cosine(0) == 1.0
    && (forall m: nat | m % 2 == 0 :: SineSum(m) <= sine(1) <= SineSum(m + 1))
    && (forall m: nat | m % 2 == 0 :: CosineSum(m) <= cosine(1) <= CosineSum(m + 1))
    && (forall n: nat :: Adds(sine, cosine, n))
  }

  ghost predicate Adds(sine: nat -> real, cosine: nat -> real, n: nat) {
    && SineAdds(sine(n + 1), sine(n), cosine(n), sine(1), cosine(1))
    && CosineAdds(cosine(n + 1), sine(n), cosine(n), sine(1), cosine(1))
  }

  predicate SineAdds(x': real, x: real, y: real, u: real, v: real) {
    x' == x * v + y * u
  }

  predicate CosineAdds(y': real, x: real, y: real, u: real, v: real) {
    y' == y * v - x * u
  }

  function Abs(x: real): real { if x < 0.0 then -x else x }

  // ----- numerals -----

  /** Sine and cosine as multiples of the last of 34 decimals. */
  datatype Point = Point(s: int, c: int)

  const UNIT: int := 10000000000000000000000000000000000

  /** More than all errors together. */
  const SPREAD: int := 10000000000000000000000

  const ONE := Point(8414709848078965066525023216302990, 5403023058681397174009366074429766)

  function Size(x: int): int { if x < 0 then -x else x }

  /** Point `b` follows from point `a` by the addition theorem, up to rounding, and its sine keeps
      away from where the integer part is not entry `n` of the table. */
  predicate Fits(n: nat, a: Point, b: Point) {
    && n < 64 && Size(a.s) <= UNIT && Size(a.c) <= UNIT
    && Size(a.s * ONE.c + a.c * ONE.s - b.s * UNIT) <= 3 * UNIT
    && Size(a.c * ONE.c - a.s * ONE.s - b.c * UNIT) <= 3 * UNIT
    && T(n) * UNIT <= (Size(b.s) - SPREAD) * 0x1_0000_0000
    && (Size(b.s) + SPREAD) * 0x1_0000_0000 < (T(n) + 1) * UNIT
  }

  predicate AllFit(fits: (nat, Point, Point) -> bool, g: nat, p: seq<Point>) {
    forall k | 0 <= k < |p| - 1 :: fits(g + k, p[k], p[k + 1])
  }

  lemma Eight(fits: (nat, Point, Point) -> bool, g: nat, a: Point, b: Point, c: Point, d: Point, e: Point,
              f: Point, h: Point, i: Point, j: Point)
    requires fits(g, a, b) && fits(g + 1, b, c) && fits(g + 2, c, d) && fits(g + 3, d, e)
    requires fits(g + 4, e, f) && fits(g + 5, f, h) && fits(g + 6, h, i) && fits(g + 7, i, j)
    ensures AllFit(fits, g, [a, b, c, d, e, f, h, i, j])
  {
  }

  lemma From0() returns (p: seq<Point>)
    ensures |p| == 9 && p[0] == Point(0, 10000000000000000000000000000000000)
    ensures p[8] == Point(9893582466233817778081235982452887, -1455000338086135258688413818311947)
    ensures AllFit(Fits, 0, p)
  {
    var a := Point(0, 10000000000000000000000000000000000);
    var b := Point(8414709848078965066525023216302990, 5403023058681397174009366074429766);
    var c := Point(9092974268256816953960198659117448, -4161468365471423869975682295007622);
    var d := Point(1411200080598672221007448028081103, -9899924966004454572715727947312613);
    var e := Point(-7568024953079282513726390945118291, -6536436208636119146391681830977504);
    var f := Point(-9589242746631384688931544061559940, 2836621854632262644666391715135573);
    var h := Point(-2794154981989258728115554466118948, 9601702866503660205456522979229244);
    var i := Point(6569865987187890903969990915936352, 7539022543433046381411975217191820);
    var j := Point(9893582466233817778081235982452887, -1455000338086135258688413818311947);
    Eight(Fits, 0, a, b, c, d, e, f, h, i, j);
    p := [a, b, c, d, e, f, h, i, j];
  }

  lemma From8() returns (p: seq<Point>)
    ensures |p| == 9 && p[0] == Point(9893582466233817778081235982452887, -1455000338086135258688413818311947)
    ensures p[8] == Point(-2879033166650652947844562482186175, -9576594803233846418996372326511035)
    ensures AllFit(Fits, 8, p)
  {
    var a := Point(9893582466233817778081235982452887, -1455000338086135258688413818311947);
    var b := Point(4121184852417565697562725663524352, -9111302618846769883682947111811653);
    var c := Point(-5440211108893698134047476618513773, -8390715290764524522588639478240648);
    var d := Point(-9999902065507034570515648990255221, 44256979880507857483550247239416);
    var e := Point(-5365729180004349716653742282424018, 8438539587324921046539552931736218);
    var f := Point(4201670368266409218689550354768828, 9074467814501962138526861554744758);
    var h := Point(9906073556948703078753548040145856, 1367372182078335942489288766717382);
    var i := Point(6502878401571168658297402709888703, -7596879128588212738481464036332805);
    var j := Point(-2879033166650652947844562482186175, -9576594803233846418996372326511035);
    Eight(Fits, 8, a, b, c, d, e, f, h, i, j);
    p := [a, b, c, d, e, f, h, i, j];
  }

  lemma From16() returns (p: seq<Point>)
    ensures |p| == 9 && p[0] == Point(-2879033166650652947844562482186175, -9576594803233846418996372326511035)
    ensures p[8] == Point(-9055783620066238451357933585277933, 4241790073369969759370509447592065)
    ensures AllFit(Fits, 16, p)
  {
    var a := Point(-2879033166650652947844562482186175, -9576594803233846418996372326511035);
    var b := Point(-9613974918795568572616369448691561, -2751633380515969222203426565518629);
    var c := Point(-7509872467716761037501560844471145, 6603167082440801448161000447904508);
    var d := Point(1498772096629523297542393212382539, 9887046181866692528983528565481573);
    var e := Point(9129452507276276543760999838456823, 4080820618133919860622678609276450);
    var f := Point(8366556385360560318664807702450238, -5477292602242684213842711329509820);
    var h := Point(-88513092904038759216902568157723, -9999608263946371264541747392126938);
    var i := Point(-8462204041751706352413262719055959, -5328330203333975552157576571641258);
    var j := Point(-9055783620066238451357933585277933, 4241790073369969759370509447592065);
    Eight(Fits, 16, a, b, c, d, e, f, h, i, j);
    p := [a, b, c, d, e, f, h, i, j];
  }

  lemma From24() returns (p: seq<Point>)
    ensures |p| == 9 && p[0] == Point(-9055783620066238451357933585277933, 4241790073369969759370509447592065)
    ensures p[8] == Point(5514266812416905506615581668457128, 8342233605065102722155264708702923)
    ensures AllFit(Fits, 24, p)
  {
    var a := Point(-9055783620066238451357933585277933, 4241790073369969759370509447592065);
    var b := Point(-1323517500977730289020050938836063, 9912028118634735980832947188159242);
    var c := Point(7625584504796027375158232932045630, 6469193223286403427213839018889016);
    var d := Point(9563759284045030134323405583291930, -2921388087338361933714048358376299);
    var e := Point(2709057883078690199863430927787925, -9626058663135666019754530578993089);
    var f := Point(-6636338842129675021511733400611052, -7480575296890003517651917922551408);
    var h := Point(-9880316240928617899877489072944582, 1542514498875840507186621466142102);
    var i := Point(-4040376453230650060487708996642372, 9147423578045312789624358261503548);
    var j := Point(5514266812416905506615581668457128, 8342233605065102722155264708702923);
    Eight(Fits, 24, a, b, c, d, e, f, h, i, j);
    p := [a, b, c, d, e, f, h, i, j];
  }

  lemma From32() returns (p: seq<Point>)
    ensures |p| == 9 && p[0] == Point(5514266812416905506615581668457128, 8342233605065102722155264708702923)
    ensures p[8] == Point(7451131604793487869877094026363443, -6669380616522618443840927819337000)
    ensures AllFit(Fits, 32, p)
  {
    var a := Point(5514266812416905506615581668457128, 8342233605065102722155264708702923);
    var b := Point(9999118601072671457280843767078283, -132767472230594789152200313710070);
    var c := Point(5290826861200238208324871340321048, -8485702747846051865999720877123832);
    var d := Point(-4281826694961510044067528917459407, -9036922050915067598473045720837706);
    var e := Point(-9917788534431157368352889688408158, -1279636896274046810283279779143712);
    var f := Point(-6435381333569994606856700190807955, 7654140519453433564910812929025117);
    var h := Point(2963685787093853173922966498490173, 9550736440472948575865362354058770);
    var i := Point(9637953862840877532606649717658821, 2666429323599372515268257949756328);
    var j := Point(7451131604793487869877094026363443, -6669380616522618443840927819337000);
    Eight(Fits, 32, a, b, c, d, e, f, h, i, j);
    p := [a, b, c, d, e, f, h, i, j];
  }

  lemma From40() returns (p: seq<Point>)
    ensures |p| == 9 && p[0] == Point(7451131604793487869877094026363443, -6669380616522618443840927819337000)
    ensures p[8] == Point(-7682546613236667990449656648458935, -6401443394691997313129414193930772)
    ensures AllFit(Fits, 40, p)
  {
    var a := Point(7451131604793487869877094026363443, -6669380616522618443840927819337000);
    var b := Point(-1586226688047089871033170119296870, -9873392775238264582288251334148276);
    var c := Point(-9165215479156337858989891580696715, -3999853149883512939547073371772020);
    var d := Point(-8317747426285982882095782562917522, 5551133015206256770448794419625920);
    var e := Point(177019251054135778079540531666167, 9998433086476912200690090166378560);
    var f := Point(8509035245341184248623796776180411, 5253219888177296960474644048235629);
    var h := Point(9017883476488091850332930392227386, -4321779448847782949527765241327685);
    var i := Point(1235731227452240040615293480864105, -9923354691509287182797524203448622);
    var j := Point(-7682546613236667990449656648458935, -6401443394691997313129414193930772);
    Eight(Fits, 40, a, b, c, d, e, f, h, i, j);
    p := [a, b, c, d, e, f, h, i, j];
  }

  lemma From48() returns (p: seq<Point>)
    ensures |p| == 9 && p[0] == Point(-7682546613236667990449656648458935, -6401443394691997313129414193930772)
    ensures p[8] == Point(-5215510020869118801874100215106005, 8532201077225841139696812339149138)
    ensures AllFit(Fits, 48, p)
  {
    var a := Point(-7682546613236667990449656648458935, -6401443394691997313129414193930772);
    var b := Point(-9537526527594718183604235585877106, 3005925437436370836870260004905614);
    var c := Point(-2623748537039287859143936469126225, 9649660284921132740689570589010170);
    var d := Point(6702291758433747344943450749506668, 7421541968137825394673771757369559);
    var e := Point(9866275920404852965875689344367401, -1629907807957054810033298154252117);
    var f := Point(3959251501818341815033861392635393, -9182827862121188911997263232164721);
    var h := Point(-5587890488516162458178713189653938, -8293098328631501477278500424881687);
    var i := Point(-9997551733586198365986316832438922, 221267562619557345635642621466265);
    var j := Point(-5215510020869118801874100215106005, 8532201077225841139696812339149138);
    Eight(Fits, 48, a, b, c, d, e, f, h, i, j);
    p := [a, b, c, d, e, f, h, i, j];
  }

  lemma From56() returns (p: seq<Point>)
    ensures |p| == 9 && p[0] == Point(-5215510020869118801874100215106005, 8532201077225841139696812339149138)
    ensures p[8] == Point(9200260381967906833515366037772519, 3918572304295500051617098585131229)
    ensures AllFit(Fits, 56, p)
  {
    var a := Point(-5215510020869118801874100215106005, 8532201077225841139696812339149138);
    var b := Point(4361647552478249590805347931292435, 8998668269691937865030004046578351);
    var c := Point(9928726480845371181650881644253998, 1191801354488192854358436107669639);
    var d := Point(6367380071391378807712334923768294, -7710802229758452293874352963762892);
    var e := Point(-3048106211022167056256494654784258, -9524129804151562926938165959929333);
    var f := Point(-9661177700083929470182879894805182, -2581016359382674457012073471527540);
    var h := Point(-7391806966492228672760169337554366, 6735071623235862528878334059539365);
    var i := Point(1673557003028069215278383702887180, 9858965815825496974386357560539772);
    var j := Point(9200260381967906833515366037772519, 3918572304295500051617098585131229);
    Eight(Fits, 56, a, b, c, d, e, f, h, i, j);
    p := [a, b, c, d, e, f, h, i, j];
  }

  // ----- from point to point -----

  ghost predicate Leads(fits: (nat, Point, Point) -> bool, good: (nat, Point) -> bool, done: nat -> bool) {
    forall n: nat, a, b :: fits(n, a, b) && good(n, a) ==> good(n + 1, b) && done(n)
  }

  lemma {:induction false} Follow(fits: (nat, Point, Point) -> bool, good: (nat, Point) -> bool, done: nat -> bool,
                                  g: nat, p: seq<Point>)
    requires Leads(fits, good, done) && p != [] && good(g, p[0]) && AllFit(fits, g, p)
    ensures good(g + |p| - 1, p[|p| - 1]) && forall i: nat | g <= i < g + |p| - 1 :: done(i)
    decreases |p|
  {
    if |p| > 1 {
      assert fits(g + 0, p[0], p[0 + 1]);
      var rest := p[1..];
      forall k | 0 <= k < |rest| - 1 ensures fits(g + 1 + k, rest[k], rest[k + 1]) {
        assert fits(g + (k + 1), p[k + 1], p[k + 1 + 1]);
      }
      Follow(fits, good, done, g + 1, rest);
      assert done(g);
    }
  }

  // ----- the start -----

  const U := UNIT as real

  predicate Near(x: real, s: real, e: real) {
    -e <= x * U - s <= e
  }

  lemma Inverses()
    ensures Inverse(0) == 1.0 / 1.0
    ensures Inverse(1) == 1.0 / 1.0
    ensures Inverse(2) == 1.0 / 2.0
    ensures Inverse(3) == 1.0 / 6.0
    ensures Inverse(4) == 1.0 / 24.0
    ensures Inverse(5) == 1.0 / 120.0
    ensures Inverse(6) == 1.0 / 720.0
    ensures Inverse(7) == 1.0 / 5040.0
    ensures Inverse(8) == 1.0 / 40320.0
    ensures Inverse(9) == 1.0 / 362880.0
    ensures Inverse(10) == 1.0 / 3628800.0
    ensures Inverse(11) == 1.0 / 39916800.0
    ensures Inverse(12) == 1.0 / 479001600.0
    ensures Inverse(13) == 1.0 / 6227020800.0
    ensures Inverse(14) == 1.0 / 87178291200.0
    ensures Inverse(15) == 1.0 / 1307674368000.0
    ensures Inverse(16) == 1.0 / 20922789888000.0
    ensures Inverse(17) == 1.0 / 355687428096000.0
    ensures Inverse(18) == 1.0 / 6402373705728000.0
    ensures Inverse(19) == 1.0 / 121645100408832000.0
    ensures Inverse(20) == 1.0 / 2432902008176640000.0
    ensures Inverse(21) == 1.0 / 51090942171709440000.0
    ensures Inverse(22) == 1.0 / 1124000727777607680000.0
    ensures Inverse(23) == 1.0 / 25852016738884976640000.0
    ensures Inverse(24) == 1.0 / 620448401733239439360000.0
    ensures Inverse(25) == 1.0 / 15511210043330985984000000.0
    ensures Inverse(26) == 1.0 / 403291461126605635584000000.0
    ensures Inverse(27) == 1.0 / 10888869450418352160768000000.0
    ensures Inverse(28) == 1.0 / 304888344611713860501504000000.0
    ensures Inverse(29) == 1.0 / 8841761993739701954543616000000.0
    ensures Inverse(30) == 1.0 / 265252859812191058636308480000000.0
    ensures Inverse(31) == 1.0 / 8222838654177922817725562880000000.0
    ensures Inverse(32) == 1.0 / 263130836933693530167218012160000000.0
    ensures Inverse(33) == 1.0 / 8683317618811886495518194401280000000.0
  {
  }

  /** The series at 1, from their first seventeen terms. */
  lemma SineAtOne()
    ensures Near(SineSum(16), ONE.s as real, 1.0) && Near(SineSum(17), ONE.s as real, 1.0)
  {
    Inverses();
    assert SineSum(4) == SineSum(0) + Inverse(1) - Inverse(3) + Inverse(5) - Inverse(7);
    assert SineSum(8) == SineSum(4) + Inverse(9) - Inverse(11) + Inverse(13) - Inverse(15);
    assert SineSum(12) == SineSum(8) + Inverse(17) - Inverse(19) + Inverse(21) - Inverse(23);
    assert SineSum(16) == SineSum(12) + Inverse(25) - Inverse(27) + Inverse(29) - Inverse(31);
    assert SineSum(17) == SineSum(16) + Inverse(33);
  }

  lemma CosineAtOne()
    ensures Near(CosineSum(16), ONE.c as real, 1.0) && Near(CosineSum(17), ONE.c as real, 1.0)
  {
    Inverses();
    assert CosineSum(4) == CosineSum(0) + Inverse(0) - Inverse(2) + Inverse(4) - Inverse(6);
    assert CosineSum(8) == CosineSum(4) + Inverse(8) - Inverse(10) + Inverse(12) - Inverse(14);
    assert CosineSum(12) == CosineSum(8) + Inverse(16) - Inverse(18) + Inverse(20) - Inverse(22);
    assert CosineSum(16) == CosineSum(12) + Inverse(24) - Inverse(26) + Inverse(28) - Inverse(30);
    assert CosineSum(17) == CosineSum(16) + Inverse(32);
  }

  lemma AtOne(sine: nat -> real, cosine: nat -> real)
    requires SineAndCosine(sine, cosine)
    ensures Near(sine(1), ONE.s as real, 1.0) && Near(cosine(1), ONE.c as real, 1.0)
  {
    SineAtOne();
    CosineAtOne();
    assert SineSum(16) <= sine(1) <= SineSum(16 + 1);
    assert CosineSum(16) <= cosine(1) <= CosineSum(16 + 1);
  }

  // ----- errors -----

  lemma Product(a: real, b: real, e: real, f: real)
    requires -e <= a <= e && -f <= b <= f
    ensures -(e * f) <= a * b <= e * f
  {
    if a >= 0.0 {
      if b >= 0.0 { assert a * b <= e * b <= e * f; } else { assert a * -b <= e * -b <= e * f; }
    } else {
      if b >= 0.0 { assert -a * b <= e * b <= e * f; } else { assert -a * -b <= e * -b <= e * f; }
    }
  }

  /** The error of a sum of two products, the factors being off by `a` and `b`, and by `g` and `h`. */
  lemma DriftOfSum(s: real, c: real, p: real, q: real, a: real, b: real, g: real, h: real, e: real, t: real)
    requires 0.0 <= e <= U && -U <= s <= U && -U <= c <= U && -U <= p <= U && -U <= q <= U
    requires -e <= a <= e && -e <= b <= e && -1.0 <= g <= 1.0 && -1.0 <= h <= 1.0
    requires -3.0 * U <= s * q + c * p - t * U <= 3.0 * U
    ensures -((2.0 * e + 7.0) * U) <= (s + a) * (q + h) + (c + b) * (p + g) - t * U <= (2.0 * e + 7.0) * U
  {
    Product(s, h, U, 1.0);
    Product(a, q, e, U);
    Product(a, h, e, 1.0);
    Product(c, g, U, 1.0);
    Product(b, p, e, U);
    Product(b, g, e, 1.0);
    assert (s + a) * (q + h) == s * q + s * h + a * q + a * h;
    assert (c + b) * (p + g) == c * p + c * g + b * p + b * g;
  }

  /** The same for the values themselves. */
  lemma SumIsNear(x: real, y: real, u: real, v: real, s: real, c: real, p: real, q: real, e: real, t: real)
    requires 0.0 <= e <= U && -U <= s <= U && -U <= c <= U && -U <= p <= U && -U <= q <= U
    requires Near(x, s, e) && Near(y, c, e) && Near(u, p, 1.0) && Near(v, q, 1.0)
    requires -3.0 * U <= s * q + c * p - t * U <= 3.0 * U
    ensures Near(x * v + y * u, t, 2.0 * e + 7.0)
  {
    DriftOfSum(s, c, p, q, x * U - s, y * U - c, u * U - p, v * U - q, e, t);
    var r := x * v + y * u;
    assert (x * U) * (v * U) + (y * U) * (u * U) == r * U * U;
    assert -((2.0 * e + 7.0) * U) <= (r * U - t) * U <= (2.0 * e + 7.0) * U;
  }

  lemma Opposite(y': real, x: real, y: real, u: real, v: real, w: real)
    requires CosineAdds(y', x, y, u, v) && w == -u
    ensures SineAdds(y', y, x, w, v)
  {
  }

  lemma ResultIsNear(x': real, x: real, y: real, u: real, v: real, t: real, e: real)
    requires SineAdds(x', x, y, u, v) && Near(x * v + y * u, t, e)
    ensures Near(x', t, e)
  {
  }

  /** One step of the addition theorem, for the sine and for the cosine. */
  lemma SineIsNear(x': real, x: real, y: real, u: real, v: real, a: Point, b: Point, e: real)
    requires SineAdds(x', x, y, u, v) && 0.0 <= e <= U && Size(a.s) <= UNIT && Size(a.c) <= UNIT
    requires Size(a.s * ONE.c + a.c * ONE.s - b.s * UNIT) <= 3 * UNIT
    requires Near(x, a.s as real, e) && Near(y, a.c as real, e)
    requires Near(u, ONE.s as real, 1.0) && Near(v, ONE.c as real, 1.0)
    ensures Near(x', b.s as real, 2.0 * e + 7.0)
  {
    SumIsNear(x, y, u, v, a.s as real, a.c as real, ONE.s as real, ONE.c as real, e, b.s as real);
    ResultIsNear(x', x, y, u, v, b.s as real, 2.0 * e + 7.0);
  }

  lemma CosineIsNear(y': real, x: real, y: real, u: real, v: real, a: Point, b: Point, e: real)
    requires CosineAdds(y', x, y, u, v) && 0.0 <= e <= U && Size(a.s) <= UNIT && Size(a.c) <= UNIT
    requires Size(a.c * ONE.c - a.s * ONE.s - b.c * UNIT) <= 3 * UNIT
    requires Near(x, a.s as real, e) && Near(y, a.c as real, e)
    requires Near(u, ONE.s as real, 1.0) && Near(v, ONE.c as real, 1.0)
    ensures Near(y', b.c as real, 2.0 * e + 7.0)
  {
    var w, t := -u, -(ONE.s as real);
    assert Near(w, t, 1.0);
    SumIsNear(y, x, w, v, a.c as real, a.s as real, t, ONE.c as real, e, b.c as real);
    Opposite(y', x, y, u, v, w);
    ResultIsNear(y', y, x, w, v, b.c as real, 2.0 * e + 7.0);
  }

  /** How far off the point for `n` can be. */
  function Drift(n: nat): real {
    if n == 0 then 0.0 else 2.0 * Drift(n - 1) + 7.0
  }

  lemma {:induction false} DriftIsSmall(n: nat, m: nat)
    requires n <= m
    ensures 0.0 <= Drift(n) <= Drift(m)
    decreases m
  {
    if n < m {
      DriftIsSmall(n, m - 1);
    } else if n > 0 {
      DriftIsSmall(n - 1, n - 1);
    }
  }

  lemma LastDrift()
    ensures Drift(64) <= SPREAD as real
  {
    assert Drift(4) == 105.0;
    assert Drift(8) == 1785.0;
    assert Drift(12) == 28665.0;
    assert Drift(16) == 458745.0;
    assert Drift(20) == 7340025.0;
    assert Drift(24) == 117440505.0;
    assert Drift(28) == 1879048185.0;
    assert Drift(32) == 30064771065.0;
    assert Drift(36) == 481036337145.0;
    assert Drift(40) == 7696581394425.0;
    assert Drift(44) == 123145302310905.0;
    assert Drift(48) == 1970324836974585.0;
    assert Drift(52) == 31525197391593465.0;
    assert Drift(56) == 504403158265495545.0;
    assert Drift(60) == 8070450532247928825.0;
    assert Drift(64) == 129127208515966861305.0;
  }

  // ----- the table -----

  predicate Reached(sine: nat -> real, cosine: nat -> real, n: nat, a: Point) {
    Near(sine(n), a.s as real, Drift(n)) && Near(cosine(n), a.c as real, Drift(n))
  }

  predicate EntryIsSine(sine: nat -> real, i: nat) {
    i < 64 && T(i) == (4294967296.0 * Abs(sine(i + 1))).Floor
  }

  lemma FloorIs(x: real, s: int, k: nat)
    requires Near(x, s as real, SPREAD as real) && k * UNIT <= (Size(s) - SPREAD) * 0x1_0000_0000
    requires (Size(s) + SPREAD) * 0x1_0000_0000 < (k + 1) * UNIT
    ensures k == (4294967296.0 * Abs(x)).Floor
  {
    var y := 4294967296.0 * Abs(x);
    assert Size(s) as real - SPREAD as real <= Abs(x) * U <= Size(s) as real + SPREAD as real;
    assert k as real * U <= y * U < (k as real + 1.0) * U;
    assert k as real <= y < k as real + 1.0;
  }

  lemma Next(sine: nat -> real, cosine: nat -> real, n: nat, a: Point, b: Point)
    requires SineAndCosine(sine, cosine) && Fits(n, a, b) && Reached(sine, cosine, n, a)
    ensures Reached(sine, cosine, n + 1, b)
  {
    AtOne(sine, cosine);
    DriftIsSmall(n, 64);
    LastDrift();
    assert Adds(sine, cosine, n);
    SineIsNear(sine(n + 1), sine(n), cosine(n), sine(1), cosine(1), a, b, Drift(n));
    CosineIsNear(cosine(n + 1), sine(n), cosine(n), sine(1), cosine(1), a, b, Drift(n));
  }

  lemma Entry(sine: nat -> real, cosine: nat -> real, n: nat, a: Point, b: Point)
    requires Fits(n, a, b) && Reached(sine, cosine, n + 1, b)
    ensures EntryIsSine(sine, n)
  {
    DriftIsSmall(n + 1, 64);
    LastDrift();
    FloorIs(sine(n + 1), b.s, T(n));
  }

  /** Entry `i` of the table is the integer part of 2^32 times the absolute value of the sine
      of `i + 1`. */
  lemma TableIsSine(sine: nat -> real, cosine: nat -> real, i: nat)
    requires SineAndCosine(sine, cosine) && i < 64
    ensures T(i) == (4294967296.0 * Abs(sine(i + 1))).Floor
  {
    var good := (n: nat, a: Point) => Reached(sine, cosine, n, a);
    var done := (n: nat) => EntryIsSine(sine, n);
    forall n: nat, a, b | Fits(n, a, b) && good(n, a) ensures good(n + 1, b) && done(n) {
      Next(sine, cosine, n, a, b);
      Entry(sine, cosine, n, a, b);
    }
    assert Reached(sine, cosine, 0, Point(0, UNIT));
    AllDone(good, done, i);
    assert done(i);
  }

  lemma AllDone(good: (nat, Point) -> bool, done: nat -> bool, i: nat)
    requires Leads(Fits, good, done) && good(0, Point(0, UNIT)) && i < 64
    ensures done(i)
  {
    var p0 := From0();
    Follow(Fits, good, done, 0, p0);
    var p8 := From8();
    Follow(Fits, good, done, 8, p8);
    var p16 := From16();
    Follow(Fits, good, done, 16, p16);
    var p24 := From24();
    Follow(Fits, good, done, 24, p24);
    var p32 := From32();
    Follow(Fits, good, done, 32, p32);
    var p40 := From40();
    Follow(Fits, good, done, 40, p40);
    var p48 := From48();
    Follow(Fits, good, done, 48, p48);
    var p56 := From56();
    Follow(Fits, good, done, 56, p56);
  }
}
