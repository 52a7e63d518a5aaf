/** The Reed-Solomon (12,9) parity of a link-control word. */
module ReedSolomon {
  import opened Bits
  import opened Distance
  import opened GaloisField

  // ---------- The encoder ----------

  const POLY: seq<Byte> := [64, 56, 14]
  const START_MASK: seq<Byte> := [0x96, 0x96, 0x96]
  const END_MASK: seq<Byte> := [0x99, 0x99, 0x99]

  /** One step of the shift register. */
  function Shift(p: Bytes3, m: Byte): Bytes3 {
    var d := Add(m, p[2]);
    [LogMult(64, d), Add(p[0], LogMult(56, d)), Add(p[1], LogMult(14, d))]
  }

  /** The register after the whole message. */
  function Register(msg: seq<Byte>): Bytes3 {
    if msg == [] then [0, 0, 0] else Shift(Register(msg[..|msg| - 1]), msg[|msg| - 1])
  }

  /** `dmr_rs129_encode`: the parity bytes, highest power first. */
  function RsParity(msg: seq<Byte>): Bytes3 {
    var p := Register(msg);
    [p[2], p[1], p[0]]
  }

  method Rs129Encode(msg: Bytes9) returns (parityOut: seq<Byte>)
    ensures parityOut == RsParity(msg)
  {
    hide LogMult, Add;
    var parity := new Byte[3];
    parity[0], parity[1], parity[2] := 0, 0, 0;
    for i := 0 to 9
      invariant parity[..] == Register(msg[..i])
    {
      assert msg[..i + 1][..i] == msg[..i];
      ghost var p := parity[..];
      var dbyte := Add(msg[i], parity[2]);
      var j := 2;
      while j > 0
        invariant 0 <= j <= 2
        invariant forall k :: 0 <= k <= j ==> parity[k] == p[k]
        invariant forall k :: j < k < 3 ==> parity[k] == Add(p[k - 1], LogMult(POLY[k], dbyte))
      {
        parity[j] := Add(parity[j - 1], LogMult(POLY[j], dbyte));
        j := j - 1;
      }
      parity[0] := LogMult(POLY[0], dbyte);
      assert parity[..] == Shift(p, msg[i]);
    }
    assert msg[..9] == msg;
    parityOut := [parity[2], parity[1], parity[0]];
  }

  function LcMask(isTerm: bool): seq<Byte> {
    if isTerm then END_MASK else START_MASK
  }

  function Masked(parity: Bytes3, isTerm: bool): Bytes3 {
    seq(3, i requires 0 <= i < 3 => Add(parity[i], LcMask(isTerm)[i]))
  }

  /** The parity bytes sent with a link-control word. */
  function LcParity(lc: seq<Byte>, isTerm: bool): Bytes3 {
    Masked(RsParity(lc), isTerm)
  }

  method Rs129LcEncode(lc: Bytes9, isTerm: bool) returns (out3: seq<Byte>)
    ensures out3 == LcParity(lc, isTerm)
  {
    hide LogMult, Register;
    var parity := Rs129Encode(lc);
    var mask := if isTerm then END_MASK else START_MASK;
    var out := new Byte[3];
    for i := 0 to 3
      invariant forall k :: 0 <= k < i ==> out[k] == Add(parity[k], mask[k])
    {
      out[i] := Add(parity[i], mask[i]);
    }
    out3 := out[..];
  }

  // ---------- Words as polynomials ----------

  /** The word read as a polynomial, first byte highest, at the point `x`. */
  function Eval(w: seq<Byte>, x: Byte): Byte {
    if w == [] then 0 else Add(LogMult(x, Eval(w[..|w| - 1], x)), w[|w| - 1])
  }

  /** The zeros of the generator polynomial. */
  predicate IsZero(x: Byte) {
    x == 2 || x == 4 || x == 8
  }

  /** The generator polynomial x^3 + 14x^2 + 56x + 64 vanishes at its zeros. */
  lemma GeneratorZero(x: Byte)
    requires IsZero(x)
    ensures LogMult(x, LogMult(x, x)) == Add(LogMult(14, LogMult(x, x)), Add(LogMult(56, x), 64))
  {
  }

  /** The register as a polynomial at `x`. */
  function RegisterAt(p: Bytes3, x: Byte): Byte
  {
    Add(LogMult(LogMult(x, x), p[2]), Add(LogMult(x, p[1]), p[0]))
  }

  /** `c * (m * d) == (m * c) * d`. */
  lemma MulSwap(c: Byte, m: Byte, d: Byte)
    ensures LogMult(c, LogMult(m, d)) == LogMult(LogMult(m, c), d)
  {
    hide LogMult;
    LogMultAssociates(c, m, d);
    LogMultCommutes(c, m);
  }

  lemma SumFactor(a: Byte, b: Byte, c: Byte, d: Byte)
    ensures LogMult(Add(a, Add(b, c)), d) == Add(LogMult(a, d), Add(LogMult(b, d), LogMult(c, d)))
  {
    hide LogMult, Add;
    LogMultAddLeft(a, Add(b, c), d);
    LogMultAddLeft(b, c, d);
  }

  lemma Regroup(a: Byte, b: Byte, u: Byte, v: Byte, w: Byte)
    ensures Add(Add(a, u), Add(Add(b, v), w)) == Add(Add(a, b), Add(u, Add(v, w)))
  {
    hide Add;
    AddAssociates(Add(a, u), Add(b, v), w);
    AddInterchange(a, u, b, v);
    AddAssociates(Add(a, b), Add(u, v), w);
    AddAssociates(u, v, w);
  }

  /** What the new message byte adds to the register, as a multiple of x^3. */
  lemma ShiftLinear(p: Bytes3, m: Byte, x: Byte)
    requires IsZero(x)
    ensures RegisterAt(Shift(p, m), x)
         == Add(Add(LogMult(LogMult(x, x), p[1]), LogMult(x, p[0])),
                LogMult(LogMult(x, LogMult(x, x)), Add(m, p[2])))
  {
    hide LogMult, Add, IsZero;
    var d, x2 := Add(m, p[2]), LogMult(x, x);
    GeneratorZero(x);
    SumFactor(LogMult(14, x2), LogMult(56, x), 64, d);
    LogMultAddRight(x2, p[1], LogMult(14, d));
    LogMultAddRight(x, p[0], LogMult(56, d));
    MulSwap(x2, 14, d);
    MulSwap(x, 56, d);
    Regroup(LogMult(x2, p[1]), LogMult(x, p[0]), LogMult(x2, LogMult(14, d)), LogMult(x, LogMult(56, d)),
            LogMult(64, d));
  }

  lemma Reorder(a: Byte, b: Byte, c: Byte, d: Byte)
    ensures Add(Add(a, b), Add(d, c)) == Add(Add(c, Add(a, b)), d)
  {
  }

  /** A step multiplies the register by x and adds the byte times x^3. */
  lemma ShiftAt(p: Bytes3, m: Byte, x: Byte)
    requires IsZero(x)
    ensures RegisterAt(Shift(p, m), x)
         == Add(LogMult(x, RegisterAt(p, x)), LogMult(LogMult(x, LogMult(x, x)), m))
  {
    hide LogMult, Add, IsZero;
    ShiftLinear(p, m, x);
    var x2 := LogMult(x, x);
    var x3 := LogMult(x, x2);
    LogMultAddRight(x3, m, p[2]);
    LogMultAddRight(x, LogMult(x2, p[2]), Add(LogMult(x, p[1]), p[0]));
    LogMultAddRight(x, LogMult(x, p[1]), p[0]);
    LogMultAssociates(x, x2, p[2]);
    LogMultAssociates(x, x, p[1]);
    Reorder(LogMult(x2, p[1]), LogMult(x, p[0]), LogMult(x3, p[2]), LogMult(x3, m));
  }

  /** The register is the message times x^3, reduced. */
  lemma {:induction false} RegisterIsRemainder(msg: seq<Byte>, x: Byte)
    requires IsZero(x)
    ensures RegisterAt(Register(msg), x) == LogMult(LogMult(x, LogMult(x, x)), Eval(msg, x))
  {
    hide LogMult, Add, IsZero, Shift;
    var x3 := LogMult(x, LogMult(x, x));
    if msg == [] {
      RegisterZero(x);
    } else {
      var n := |msg| - 1;
      var e := Eval(msg[..n], x);
      RegisterIsRemainder(msg[..n], x);
      ShiftAt(Register(msg[..n]), msg[n], x);
      LogMultAddRight(x3, LogMult(x, e), msg[n]);
      LogMultAssociates(x3, x, e);
      LogMultAssociates(x, x3, e);
      LogMultCommutes(x, x3);
    }
  }

  lemma RegisterZero(x: Byte)
    ensures RegisterAt([0, 0, 0], x) == 0 && LogMult(LogMult(x, LogMult(x, x)), 0) == 0
  {
  }

  // ---------- Roots of the codewords ----------

  /** A message with its parity, as transmitted before masking. */
  function Codeword(msg: seq<Byte>): seq<Byte> {
    msg + RsParity(msg)
  }

  lemma EvalAppend(w: seq<Byte>, b: Byte, x: Byte)
    ensures Eval(w + [b], x) == Add(LogMult(x, Eval(w, x)), b)
  {
    hide LogMult, Add;
    assert (w + [b])[..|w|] == w;
  }

  lemma EvalAppend3(w: seq<Byte>, a: Byte, b: Byte, c: Byte, x: Byte)
    ensures Eval(w + [a, b, c], x)
         == Add(LogMult(LogMult(x, LogMult(x, x)), Eval(w, x)), RegisterAt([c, b, a], x))
  {
    hide LogMult, Add, Eval;
    var e, x2 := Eval(w, x), LogMult(x, x);
    assert w + [a, b, c] == ((w + [a]) + [b]) + [c];
    EvalAppend(w, a, x);
    EvalAppend(w + [a], b, x);
    EvalAppend((w + [a]) + [b], c, x);
    LogMultAddRight(x, LogMult(x, e), a);
    LogMultAssociates(x, x, e);
    LogMultAssociates(x, x, a);
    LogMultAddRight(x, Add(LogMult(x2, e), LogMult(x, a)), b);
    LogMultAddRight(x, LogMult(x2, e), LogMult(x, a));
    LogMultAssociates(x, x2, e);
    AddAssociates(LogMult(LogMult(x, x2), e), LogMult(x2, a), LogMult(x, b));
    AddAssociates(LogMult(LogMult(x, x2), e), Add(LogMult(x2, a), LogMult(x, b)), c);
    AddAssociates(LogMult(x2, a), LogMult(x, b), c);
  }

  /** Every message with its parity vanishes at 2, 4 and 8. */
  lemma CodewordVanishes(msg: seq<Byte>, x: Byte)
    requires IsZero(x)
    ensures Eval(Codeword(msg), x) == 0
  {
    hide LogMult, Add, Eval, IsZero, Register, RegisterAt;
    var p := Register(msg);
    EvalAppend3(msg, p[2], p[1], p[0], x);
    assert [p[0], p[1], p[2]] == p;
    RegisterIsRemainder(msg, x);
    AddSelf(RegisterAt(p, x));
  }

  // ---------- Minimum distance ----------

  function PowerOf(x: Byte, n: nat): Byte {
    if n == 0 then 1 else LogMult(x, PowerOf(x, n - 1))
  }

  lemma MulOne(a: Byte)
    ensures LogMult(1, a) == a && LogMult(a, 1) == a
  {
    hide Exp, Log;
    if a != 0 {
      ExpLog(a);
      LogOne();
    }
  }

  lemma LogOne()
    ensures Log(1) == 0
  {
  }

  /** Changing one byte changes the value by the change times a power of x. */
  lemma {:induction false} EvalUpdate(w: seq<Byte>, i: nat, v: Byte, x: Byte)
    requires i < |w|
    ensures Eval(w[i := v], x) == Add(Eval(w, x), LogMult(PowerOf(x, |w| - 1 - i), Add(w[i], v)))
  {
    hide LogMult, Add;
    var n := |w| - 1;
    var e := Eval(w[..n], x);
    if i == n {
      assert w[i := v][..n] == w[..n];
      MulOne(Add(w[i], v));
      AddReplace(LogMult(x, e), w[n], v);
    } else {
      EvalUpdate(w[..n], i, v, x);
      assert w[i := v][..n] == w[..n][i := v];
      var d := LogMult(PowerOf(x, n - 1 - i), Add(w[i], v));
      LogMultAddRight(x, e, d);
      LogMultAssociates(x, PowerOf(x, n - 1 - i), Add(w[i], v));
      AddExchange(LogMult(x, e), LogMult(x, d), w[n]);
    }
  }

  lemma AddReplace(e: Byte, a: Byte, v: Byte)
    ensures Add(e, v) == Add(Add(e, a), Add(a, v))
  {
  }

  lemma AddExchange(a: Byte, b: Byte, c: Byte)
    ensures Add(Add(a, b), c) == Add(Add(a, c), b)
  {
  }

  lemma SumZero(a: Byte, b: Byte)
    ensures Add(a, b) == 0 <==> a == b
  {
  }

  lemma Combine(A: Byte, B: Byte, u: Byte, v: Byte, w: Byte)
    ensures Add(LogMult(A, u), Add(LogMult(B, v), LogMult(Add(A, B), w)))
         == Add(LogMult(A, Add(u, w)), LogMult(B, Add(v, w)))
  {
    hide LogMult, Add;
    LogMultAddLeft(A, B, w);
    LogMultAddRight(A, u, w);
    LogMultAddRight(B, v, w);
    CombineSums(LogMult(A, u), LogMult(B, v), LogMult(A, w), LogMult(B, w));
  }

  lemma CombineSums(a: Byte, b: Byte, c: Byte, d: Byte)
    ensures Add(a, Add(b, Add(c, d))) == Add(Add(a, c), Add(b, d))
  {
  }

  lemma SquareSum(a: Byte, c: Byte)
    ensures Add(LogMult(a, a), LogMult(c, c)) == LogMult(Add(a, c), Add(a, c))
  {
    hide LogMult, Add;
    LogMultAddLeft(a, c, Add(a, c));
    LogMultAddRight(a, a, c);
    LogMultAddRight(c, a, c);
    LogMultCommutes(a, c);
    CancelMiddle(LogMult(a, a), LogMult(a, c), LogMult(c, c));
  }

  lemma CancelMiddle(a: Byte, b: Byte, c: Byte)
    ensures Add(Add(a, b), Add(b, c)) == Add(a, c)
  {
  }

  lemma SumOfThreeZero(a: Byte, b: Byte, c: Byte)
    requires Add(a, Add(b, c)) == 0
    ensures c == Add(a, b)
  {
  }

  lemma ShiftedSum(a: Byte, b: Byte, c: Byte)
    ensures Add(Add(a, c), Add(b, c)) == Add(a, b)
  {
  }

  /** The Vandermonde step: three weighted locators with vanishing first three
      moments have no weight at a locator different from the other two. */
  lemma Vandermonde(A: Byte, B: Byte, C: Byte, a: Byte, b: Byte, c: Byte)
    requires a != b && a != c
    requires Add(A, Add(B, C)) == 0
    requires Add(LogMult(A, a), Add(LogMult(B, b), LogMult(C, c))) == 0
    requires Add(LogMult(A, LogMult(a, a)), Add(LogMult(B, LogMult(b, b)), LogMult(C, LogMult(c, c)))) == 0
    ensures A == 0
  {
    hide LogMult, Add;
    SumOfThreeZero(A, B, C);
    var u, v := Add(a, c), Add(b, c);
    var P, Q := LogMult(A, u), LogMult(B, v);
    Combine(A, B, a, b, c);
    SumZero(P, Q);
    Combine(A, B, LogMult(a, a), LogMult(b, b), LogMult(c, c));
    SquareSum(a, c);
    SquareSum(b, c);
    LogMultAssociates(A, u, u);
    LogMultAssociates(B, v, v);
    LogMultAddRight(P, u, v);
    ShiftedSum(a, b, c);
    NoZeroDivisors(P, Add(a, b));
    SumZero(a, b);
    NoZeroDivisors(A, u);
    SumZero(a, c);
  }

  // ---------- Locators ----------

  lemma {:induction false} PowerSquare(n: nat)
    ensures PowerOf(4, n) == LogMult(PowerOf(2, n), PowerOf(2, n))
    ensures PowerOf(8, n) == LogMult(PowerOf(2, n), LogMult(PowerOf(2, n), PowerOf(2, n)))
  {
    hide LogMult;
    if n == 0 {
      MulOne(1);
    } else {
      var a := PowerOf(2, n - 1);
      PowerSquare(n - 1);
      SmallProducts();
      MulMul(2, 2, a, a);
      MulMul(2, 4, a, LogMult(a, a));
    }
  }

  lemma SmallProducts()
    ensures LogMult(2, 2) == 4 && LogMult(2, 4) == 8
  {
  }

  lemma MulMul(a: Byte, b: Byte, c: Byte, d: Byte)
    ensures LogMult(LogMult(a, b), LogMult(c, d)) == LogMult(LogMult(a, c), LogMult(b, d))
  {
    hide LogMult;
    LogMultAssociates(a, b, LogMult(c, d));
    LogMultAssociates(b, c, d);
    LogMultCommutes(b, c);
    LogMultAssociates(c, b, d);
    LogMultAssociates(a, c, LogMult(b, d));
  }

  function Locator(n: nat): Byte {
    match n
    case 0 => 0x01
    case 1 => 0x02
    case 2 => 0x04
    case 3 => 0x08
    case 4 => 0x10
    case 5 => 0x20
    case 6 => 0x40
    case 7 => 0x80
    case 8 => 0x1D
    case 9 => 0x3A
    case 10 => 0x74
    case _ => 0xE8
  }

  lemma {:induction false} LocatorIsPower(n: nat)
    requires n < 12
    ensures PowerOf(2, n) == Locator(n)
  {
    hide LogMult;
    if n == 0 {
    } else {
      LocatorIsPower(n - 1);
      LocatorNext(n - 1);
    }
  }

  lemma LocatorNext(n: nat)
    requires n < 11
    ensures LogMult(2, Locator(n)) == Locator(n + 1)
  {
    hide LogMult;
    TwoIsTwice(Locator(n));
  }

  lemma TwoIsTwice(a: Byte)
    ensures LogMult(2, a) == Twice(a)
  {
    hide Exp, Twice;
    LogTwo();
    LogMultPower(2, a);
    PowerStep(0, a);
  }

  lemma LogTwo()
    ensures Log(2) == 1
  {
  }

  lemma LocatorsDiffer(m: nat, n: nat)
    requires m < 12 && n < 12
    ensures Locator(m) != 0 && (m != n ==> Locator(m) != Locator(n))
  {
  }

  /** What an error `d` at the locator `a` contributes at 2, 4 and 8. */
  lemma Moments(n: nat, d: Byte)
    requires n < 12
    ensures var a, A := Locator(n), LogMult(Locator(n), d);
            && LogMult(PowerOf(2, n), d) == A
            && LogMult(PowerOf(4, n), d) == LogMult(A, a)
            && LogMult(PowerOf(8, n), d) == LogMult(A, LogMult(a, a))
  {
    hide LogMult, Locator;
    var a := Locator(n);
    LocatorIsPower(n);
    PowerSquare(n);
    LogMultAssociates(a, a, d);
    LogMultAssociates(a, LogMult(a, a), d);
    LogMultAssociates(LogMult(a, a), a, d);
    LogMultCommutes(a, LogMult(a, a));
    LogMultCommutes(a, LogMult(a, d));
    LogMultCommutes(LogMult(a, a), LogMult(a, d));
  }

  lemma AddTail(z: Byte, a: Byte, b: Byte, c: Byte)
    requires Add(Add(Add(z, a), b), c) == z
    ensures Add(a, Add(b, c)) == 0
  {
  }

  /** `w` and `t` differ at most at `i`, `j` and `k`. */
  ghost predicate AgreeExcept3(w: seq<Byte>, t: seq<Byte>, i: nat, j: nat, k: nat)
    requires |w| == |t|
  {
    forall n: nat :: n < |w| && n != i && n != j && n != k ==> w[n] == t[n]
  }

  ghost predicate Vanishes(w: seq<Byte>) {
    Eval(w, 2) == 0 && Eval(w, 4) == 0 && Eval(w, 8) == 0
  }

  /** The contributions of three errors to the value at `x` cancel. */
  lemma ErrorSum(w: Bytes12, t: Bytes12, i: nat, j: nat, k: nat, x: Byte)
    requires i < 12 && j < 12 && k < 12 && i != j && i != k && j != k
    requires AgreeExcept3(w, t, i, j, k) && Eval(w, x) == Eval(t, x) == 0
    ensures Add(LogMult(PowerOf(x, 11 - i), Add(w[i], t[i])),
                Add(LogMult(PowerOf(x, 11 - j), Add(w[j], t[j])),
                    LogMult(PowerOf(x, 11 - k), Add(w[k], t[k])))) == 0
  {
    hide LogMult, Add, Eval, PowerOf;
    ThreeUpdates(w, t, i, j, k, x);
    AddTail(0, LogMult(PowerOf(x, 11 - i), Add(w[i], t[i])), LogMult(PowerOf(x, 11 - j), Add(w[j], t[j])),
            LogMult(PowerOf(x, 11 - k), Add(w[k], t[k])));
  }

  lemma EvalChange(w: Bytes12, t: seq<Byte>, i: nat, u: Byte, v: Byte, x: Byte)
    requires i < 12 && t == w[i := v] && w[i] == u
    ensures Eval(t, x) == Add(Eval(w, x), LogMult(PowerOf(x, 11 - i), Add(u, v)))
  {
    hide LogMult, Add, Eval, PowerOf;
    EvalUpdate(w, i, v, x);
  }

  lemma ThreeUpdates(w: Bytes12, t: Bytes12, i: nat, j: nat, k: nat, x: Byte)
    requires i < 12 && j < 12 && k < 12 && i != j && i != k && j != k
    requires AgreeExcept3(w, t, i, j, k)
    ensures Eval(t, x) == Add(Add(Add(Eval(w, x), LogMult(PowerOf(x, 11 - i), Add(w[i], t[i]))),
                                  LogMult(PowerOf(x, 11 - j), Add(w[j], t[j]))),
                              LogMult(PowerOf(x, 11 - k), Add(w[k], t[k])))
  {
    hide LogMult, Add, Eval, PowerOf;
    var w1 := w[i := t[i]];
    var w2 := w1[j := t[j]];
    assert t == w2[k := t[k]];
    EvalChange(w, w1, i, w[i], t[i], x);
    EvalChange(w1, w2, j, w[j], t[j], x);
    EvalChange(w2, t, k, w[k], t[k], x);
  }

  /** Three positions cannot carry all the differences of two codewords. */
  lemma ThreeErrorsDetected(w: Bytes12, t: Bytes12, i: nat, j: nat, k: nat)
    requires i < 12 && j < 12 && k < 12 && i != j && i != k && j != k
    requires Vanishes(w) && Vanishes(t) && w[i] != t[i]
    ensures !AgreeExcept3(w, t, i, j, k)
  {
    hide LogMult, Add, Eval, PowerOf, Locator;
    if AgreeExcept3(w, t, i, j, k) {
      ErrorSum(w, t, i, j, k, 2);
      ErrorSum(w, t, i, j, k, 4);
      ErrorSum(w, t, i, j, k, 8);
      var u, v, z := Add(w[i], t[i]), Add(w[j], t[j]), Add(w[k], t[k]);
      var a, b, c := Locator(11 - i), Locator(11 - j), Locator(11 - k);
      Moments(11 - i, u);
      Moments(11 - j, v);
      Moments(11 - k, z);
      LocatorsDiffer(11 - i, 11 - j);
      LocatorsDiffer(11 - i, 11 - k);
      Vandermonde(LogMult(a, u), LogMult(b, v), LogMult(c, z), a, b, c);
      NoZeroDivisors(a, u);
      SumZero(w[i], t[i]);
    }
  }

  /** The code has minimum distance four. */
  lemma VanishingDistance(w: Bytes12, t: Bytes12)
    requires Vanishes(w) && Vanishes(t) && w != t
    ensures Dist(w, t) >= 4
  {
    hide Vanishes;
    var i: nat :| i < 12 && w[i] != t[i];
    ThreeErrorsDetected(w, t, i, (i + 1) % 12, (i + 2) % 12);
    var j: nat :| j < 12 && j != i && w[j] != t[j];
    var other := if i != 0 && j != 0 then 0 else if i != 1 && j != 1 then 1 else 2;
    ThreeErrorsDetected(w, t, i, j, other);
    var k: nat :| k < 12 && k != i && k != j && w[k] != t[k];
    ThreeErrorsDetected(w, t, i, j, k);
    var l: nat :| l < 12 && l != i && l != j && l != k && w[l] != t[l];
    WitnessBound(w, t, [i, j, k, l]);
  }

  /** The twelve bytes that BPTC carries. */
  function LcWord(lc: seq<Byte>, isTerm: bool): seq<Byte> {
    lc + LcParity(lc, isTerm)
  }

  /** The mask moves no difference: it is the same for both words. */
  lemma MaskKeepsDistance(lc: Bytes9, lc': Bytes9, isTerm: bool)
    ensures Differing(LcWord(lc, isTerm), LcWord(lc', isTerm)) == Differing(Codeword(lc), Codeword(lc'))
  {
    hide RsParity;
    var w, w' := LcWord(lc, isTerm), LcWord(lc', isTerm);
    forall i | 0 <= i < 12 ensures w[i] != w'[i] <==> Codeword(lc)[i] != Codeword(lc')[i] {
      if i >= 9 {
        AddCancels(RsParity(lc)[i - 9], RsParity(lc')[i - 9], LcMask(isTerm)[i - 9]);
      }
    }
  }

  lemma AddCancels(a: Byte, b: Byte, m: Byte)
    ensures Add(a, m) == Add(b, m) <==> a == b
  {
  }

  /** Two different link-control words are sent at least four bytes apart. */
  lemma LcDistance(lc: Bytes9, lc': Bytes9, isTerm: bool)
    requires lc != lc'
    ensures Dist(LcWord(lc, isTerm), LcWord(lc', isTerm)) >= 4
  {
    hide RsParity, Eval, LcParity, LogMult;
    MaskKeepsDistance(lc, lc', isTerm);
    forall x | IsZero(x) ensures Eval(Codeword(lc), x) == 0 && Eval(Codeword(lc'), x) == 0 {
      CodewordVanishes(lc, x);
      CodewordVanishes(lc', x);
    }
    assert IsZero(2) && IsZero(4) && IsZero(8);
    var i: nat :| i < 9 && lc[i] != lc'[i];
    assert Codeword(lc)[i] != Codeword(lc')[i];
    VanishingDistance(Codeword(lc), Codeword(lc'));
  }

  // ---------- The masks ----------

  /** What a receiver checks: the word with 0x96, for a terminator 0x99, taken off its
      last three bytes vanishes at 2, 4 and 8. */
  lemma UnmaskedVanishes(lc: Bytes9, isTerm: bool, x: Byte)
    requires IsZero(x)
    ensures var w := LcWord(lc, isTerm);
            var mask: Byte := if isTerm then 0x99 else 0x96;
            |w| == 12 && w[..9] == lc && Eval(lc + [Add(w[9], mask), Add(w[10], mask), Add(w[11], mask)], x) == 0
  {
    hide Eval, RsParity, Add, IsZero;
    var w, p := LcWord(lc, isTerm), RsParity(lc);
    var mask: Byte := if isTerm then 0x99 else 0x96;
    MaskOff(p[0], mask);
    MaskOff(p[1], mask);
    MaskOff(p[2], mask);
    assert w[9] == Add(p[0], mask) && w[10] == Add(p[1], mask) && w[11] == Add(p[2], mask);
    assert [p[0], p[1], p[2]] == p;
    CodewordVanishes(lc, x);
  }

  lemma MaskOff(p: Byte, mask: Byte)
    ensures Add(Add(p, mask), mask) == p
  {
  }
}
