/** GF(256) as the source computes in it: by exponent and logarithm tables. */
module GaloisField {
  // Sixteen table entries a row, the first in the most significant byte.
  function ExpRow(r: bv8): bv128 {
    match r
    case 0 => 0x01020408_10204080_1D3A74E8_CD871326
    case 1 => 0x4C982D5A_B475EAC9_8F03060C_183060C0
    case 2 => 0x9D274E9C_254A9435_6AD4B577_EEC19F23
    case 3 => 0x468C050A_142850A0_5DBA69D2_B96FDEA1
    case 4 => 0x5FBE61C2_992F5EBC_65CA890F_1E3C78F0
    case 5 => 0xFDE7D3BB_6BD6B17F_FEE1DFA3_5BB671E2
    case 6 => 0xD9AF4386_11224488_0D1A3468_D0BD67CE
    case 7 => 0x811F3E7C_F8EDC793_3B76ECC5_973366CC
    case 8 => 0x85172E5C_B86DDAA9_4F9E2142_84152A54
    case 9 => 0xA84D9A29_52A455AA_49923972_E4D5B773
    case 10 => 0xE6D1BF63_C6913F7E_FCE5D7B3_7BF6F1FF
    case 11 => 0xE3DBAB4B_963162C4_95376EDC_A557AE41
    case 12 => 0x82193264_C88D070E_1C3870E0_DDA753A6
    case 13 => 0x51A259B2_79F2F9EF_C39B2B56_AC458A09
    case 14 => 0x12244890_3D7AF4F5_F7F3FBEB_CB8B0B16
    case 15 => 0x2C58B07D_FAE9CF83_1B366CD8_AD478E01
    case 16 => 0x02040810_2040801D_3A74E8CD_8713264C
    case 17 => 0x982D5AB4_75EAC98F_03060C18_3060C09D
    case 18 => 0x274E9C25_4A94356A_D4B577EE_C19F2346
    case 19 => 0x8C050A14_2850A05D_BA69D2B9_6FDEA15F
    case 20 => 0xBE61C299_2F5EBC65_CA890F1E_3C78F0FD
    case 21 => 0xE7D3BB6B_D6B17FFE_E1DFA35B_B671E2D9
    case 22 => 0xAF438611_2244880D_1A3468D0_BD67CE81
    case 23 => 0x1F3E7CF8_EDC7933B_76ECC597_3366CC85
    case 24 => 0x172E5CB8_6DDAA94F_9E214284_152A54A8
    case 25 => 0x4D9A2952_A455AA49_923972E4_D5B773E6
    case 26 => 0xD1BF63C6_913F7EFC_E5D7B37B_F6F1FFE3
    case 27 => 0xDBAB4B96_3162C495_376EDCA5_57AE4182
    case 28 => 0x193264C8_8D070E1C_3870E0DD_A753A651
    case 29 => 0xA259B279_F2F9EFC3_9B2B56AC_458A0912
    case 30 => 0x2448903D_7AF4F5F7_F3FBEBCB_8B0B162C
    case _ => 0x58B07DFA_E9CF831B_366CD8AD_478E0100
  }

  function LogRow(r: bv8): bv128 {
    match r
    case 0 => 0x00000119_02321AC6_03DF33EE_1B68C74B
    case 1 => 0x0464E00E_348DEF81_1CC169F8_C8084C71
    case 2 => 0x058A652F_E1240F21_35938EDA_F0128245
    case 3 => 0x1DB5C27D_6A27F9B9_C99A0978_4DE472A6
    case 4 => 0x06BF8B62_66DD30FD_E29825B3_10912288
    case 5 => 0x36D094CE_8F96DBBD_F1D2135C_83384640
    case 6 => 0x1E42B6A3_C3487E6E_6B3A2854_FA85BA3D
    case 7 => 0xCA5E9B9F_0A15792B_4ED4E5AC_73F3A757
    case 8 => 0x0770C0F7_8C80630D_674ADEED_31C5FE18
    case 9 => 0xE3A59977_26B8B47C_114492D9_2320892E
    case 10 => 0x373FD15B_95BCCFCD_908797B2_DCFCBE61
    case 11 => 0xF256D3AB_142A5D9E_843C3953_476D41A2
    case 12 => 0x1F2D43D8_B77BA476_C41749EC_7F0C6FF6
    case 13 => 0x6CA13B52_299D55AA_FB6086B1_BBCC3E5A
    case 14 => 0xCB595FB0_9CA9A051_0BF516EB_7A752CD7
    case _ => 0x4FAED5E9_E6E7ADE8_74D6F4EA_A85058AF
  }

  /** Byte `c & 0xF` of a row, found by halving. */
  function ByteOfRow(row: bv128, c: bv8): bv8 {
    var x := (if c & 8 == 0 then row >> 64 else row & 0xFFFF_FFFF_FFFF_FFFF) as bv64;
    var y := (if c & 4 == 0 then x >> 32 else x & 0xFFFF_FFFF) as bv32;
    var z := (if c & 2 == 0 then y >> 16 else y & 0xFFFF) as bv16;
    (if c & 1 == 0 then z >> 8 else z & 0xFF) as bv8
  }

  /** EXP_TABLE[i]. */
  function Exp(i: bv16): bv8
    requires i < 512
  {
    ByteOfRow(ExpRow((i >> 4) as bv8), (i & 0xF) as bv8)
  }

  /** LOG_TABLE[a]. */
  function Log(a: bv8): bv16 {
    ByteOfRow(LogRow(a >> 4), a & 0xF) as bv16
  }

  /** Multiplication by x modulo x^8+x^4+x^3+x^2+1. */
  function Twice(a: bv8): bv8 {
    var t := a >> 7;
    (a << 1) ^ t ^ (t << 2) ^ (t << 3) ^ (t << 4)
  }

  predicate Doubles(i: bv16)
    requires i < 511
  {
    Exp(i + 1) == Twice(Exp(i))
  }

  predicate Repeats(i: bv16)
    requires i < 257
  {
    Exp(i + 255) == Exp(i)
  }

  lemma ExpStepLow(i: bv16)
    requires i < 128
    ensures Doubles(i)
  {
    var e, next := Exp(i), Exp(i + 1);
    assert next == Twice(e);
  }

  lemma ExpStepHigh(i: bv16)
    requires 128 <= i < 255
    ensures Doubles(i)
  {
    var e, next := Exp(i), Exp(i + 1);
    assert next == Twice(e);
  }

  lemma ExpPeriodLow(i: bv16)
    requires i < 128
    ensures Repeats(i)
  {
    var e, later := Exp(i), Exp(i + 255);
    assert later == e;
  }

  lemma ExpPeriodHigh(i: bv16)
    requires 128 <= i < 256
    ensures Repeats(i)
  {
    var e, later := Exp(i), Exp(i + 255);
    assert later == e;
  }

  /** The exponent table has period 255. */
  lemma ExpPeriod(i: bv16)
    requires i < 256
    ensures Exp(i + 255) == Exp(i)
  {
    hide Exp;
    if i < 128 {
      ExpPeriodLow(i);
    } else {
      ExpPeriodHigh(i);
    }
  }

  lemma ExpStep(i: bv16)
    requires i < 509
    ensures Exp(i + 1) == Twice(Exp(i))
  {
    hide Exp, Twice;
    if i < 128 {
      ExpStepLow(i);
    } else if i < 255 {
      ExpStepHigh(i);
    } else {
      ExpPeriod(i - 255);
      ExpPeriod(i - 254);
      ExpStep(i - 255);
    }
  }

  lemma ExpLogLow(a: bv8)
    requires 0 < a < 128
    ensures Exp(Log(a)) == a && Log(a) < 255
  {
  }
  lemma ExpLogHigh(a: bv8)
    requires 128 <= a
    ensures Exp(Log(a)) == a && Log(a) < 255
  {
  }
  lemma LogExp(i: bv16)
    requires i < 255
    ensures Log(Exp(i)) == i && Exp(i) != 0
  {
  }

  lemma ExpLog(a: bv8)
    requires a != 0
    ensures Exp(Log(a)) == a && Log(a) < 255
  {
    if a < 128 { ExpLogLow(a); } else { ExpLogHigh(a); }
  }

  // ---------- Multiplication ----------

  /** `log_mult`. */
  function LogMult(a: bv8, b: bv8): bv8 {
    if a == 0 || b == 0 then 0 else (ExpLog(a); ExpLog(b); Exp(Log(a) + Log(b)))
  }

  function Add(a: bv8, b: bv8): bv8 {
    a ^ b
  }

  lemma AddAssociates(a: bv8, b: bv8, c: bv8)
    ensures Add(Add(a, b), c) == Add(a, Add(b, c))
  {
  }

  lemma AddInterchange(a: bv8, b: bv8, c: bv8, d: bv8)
    ensures Add(Add(a, b), Add(c, d)) == Add(Add(a, c), Add(b, d))
  {
    hide Add;
    AddAssociates(a, b, Add(c, d));
    AddAssociates(b, c, d);
    AddAssociates(c, b, d);
    AddAssociates(a, c, Add(b, d));
    AddCommutes(b, c);
  }

  lemma AddCommutes(a: bv8, b: bv8)
    ensures Add(a, b) == Add(b, a)
  {
  }

  lemma AddSelf(a: bv8)
    ensures Add(a, a) == 0
  {
  }

  lemma TwiceAdd(a: bv8, b: bv8)
    ensures Twice(Add(a, b)) == Add(Twice(a), Twice(b))
  {
  }

  /** `x^k * b`. */
  function Power(k: bv16, b: bv8): bv8 {
    if k == 0 then b else Twice(Power(k - 1, b))
  }

  lemma {:induction false} PowerAdd(k: bv16, a: bv8, b: bv8)
    ensures Power(k, Add(a, b)) == Add(Power(k, a), Power(k, b))
  {
    hide Add, Twice;
    if k != 0 {
      PowerAdd(k - 1, a, b);
      TwiceAdd(Power(k - 1, a), Power(k - 1, b));
    }
  }

  lemma {:induction false} PowerPower(k: bv16, l: bv16, b: bv8)
    requires k < 255 && l < 256
    ensures Power(k, Power(l, b)) == Power(k + l, b)
  {
    hide Twice;
    if k != 0 {
      PowerPower(k - 1, l, b);
    }
  }

  /** The exponent table lists the powers of x. */
  lemma {:induction false} PowerExp(k: bv16, i: bv16)
    requires k < 255 && i < 255
    ensures Power(k, Exp(i)) == Exp(k + i)
  {
    hide Twice, Exp;
    if k != 0 {
      PowerExp(k - 1, i);
      ExpStep(k - 1 + i);
    }
  }

  lemma PowerStep(k: bv16, b: bv8)
    requires k < 0xFFFF
    ensures Power(k + 1, b) == Twice(Power(k, b))
  {
  }

  lemma {:induction false} PowerZero(k: bv16)
    ensures Power(k, 0) == 0
  {
    if k != 0 {
      PowerZero(k - 1);
    }
  }

  lemma LogMultPowerOf(a: bv8, b: bv8, k: bv16, l: bv16)
    requires a != 0 && b != 0 && k == Log(a) < 255 && l == Log(b) < 255 && b == Exp(l)
    ensures LogMult(a, b) == Power(k, b)
  {
    hide Exp, Log, Power;
    PowerExp(k, l);
  }

  /** The tables multiply by `x^Log(a)`. */
  lemma LogMultPower(a: bv8, b: bv8)
    requires a != 0
    ensures LogMult(a, b) == Power(Log(a), b)
  {
    if b == 0 {
      hide Log, Power;
      PowerZero(Log(a));
    } else {
      hide *;
      ExpLog(a);
      ExpLog(b);
      LogMultPowerOf(a, b, Log(a), Log(b));
    }
  }

  lemma LogMultCommutes(a: bv8, b: bv8)
    ensures LogMult(a, b) == LogMult(b, a)
  {
  }

  lemma LogMultAddRight(a: bv8, b: bv8, c: bv8)
    ensures LogMult(a, Add(b, c)) == Add(LogMult(a, b), LogMult(a, c))
  {
    hide Log, Power;
    if a == 0 {
    } else {
      LogMultPower(a, b);
      LogMultPower(a, c);
      LogMultPower(a, Add(b, c));
      PowerAdd(Log(a), b, c);
    }
  }

  lemma LogMultAddLeft(a: bv8, b: bv8, c: bv8)
    ensures LogMult(Add(a, b), c) == Add(LogMult(a, c), LogMult(b, c))
  {
    hide LogMult, Add;
    LogMultCommutes(Add(a, b), c);
    LogMultCommutes(a, c);
    LogMultCommutes(b, c);
    LogMultAddRight(c, a, b);
  }

  lemma NoZeroDivisors(a: bv8, b: bv8)
    requires LogMult(a, b) == 0
    ensures a == 0 || b == 0
  {
    hide Exp, Log;
    if a != 0 && b != 0 {
      ExpLog(a);
      ExpLog(b);
      ExpNotZero(Log(a) + Log(b));
    }
  }

  lemma ExpNotZero(i: bv16)
    requires i < 510
    ensures Exp(i) != 0
  {
    hide Exp;
    if i < 255 {
      LogExp(i);
    } else {
      ExpPeriod(i - 255);
      LogExp(i - 255);
    }
  }

  /** Multiplying by x^255 changes nothing. */
  lemma PowerPeriod(b: bv8)
    ensures Power(255, b) == b
  {
    hide Exp, Log, Power;
    if b == 0 {
      PowerZero(255);
    } else {
      ExpLog(b);
      PowerExp(254, Log(b));
      PowerStep(254, b);
      ExpStep(254 + Log(b));
      ExpPeriod(Log(b));
    }
  }

  lemma LogMultAssociates(a: bv8, b: bv8, c: bv8)
    ensures LogMult(LogMult(a, b), c) == LogMult(a, LogMult(b, c))
  {
    hide Exp, Log, Power;
    if a != 0 && b != 0 {
      ExpLog(a);
      ExpLog(b);
      var s := Log(a) + Log(b);
      ExpNotZero(s);
      LogMultPower(a, LogMult(b, c));
      LogMultPower(b, c);
      PowerPower(Log(a), Log(b), c);
      LogMultPower(Exp(s), c);
      if s < 255 {
        LogExp(s);
      } else {
        ExpPeriod(s - 255);
        LogExp(s - 255);
        PowerPower(s - 255, 255, c);
        PowerPeriod(c);
      }
    }
  }

  // ---------- The field the tables compute in ----------

  /** The polynomial x^k as a byte. */
  function Monomial(k: bv16): bv8
    requires k < 8
  {
    1 << (k as bv8)
  }

  /** The sum of `x^k * b` over the powers below `n` that occur in `a`. */
  function MulBelow(a: bv8, b: bv8, n: bv16): bv8
    requires n <= 8
  {
    if n == 0 then 0
    else Add(MulBelow(a, b, n - 1), if a & Monomial(n - 1) == 0 then 0 else Power(n - 1, b))
  }

  /** The product of two polynomials over GF(2) modulo x^8+x^4+x^3+x^2+1. */
  function Mul(a: bv8, b: bv8): bv8 {
    MulBelow(a, b, 8)
  }

  function Below(a: bv8, n: bv16): bv8
    requires n <= 8
  {
    if n == 0 then 0 else Add(Below(a, n - 1), a & Monomial(n - 1))
  }

  lemma BelowAll(a: bv8)
    ensures Below(a, 8) == a
  {
    assert Below(a, 1) == a & 0x01;
    assert Below(a, 3) == a & 0x07;
    assert Below(a, 5) == a & 0x1F;
    assert Below(a, 7) == a & 0x7F;
  }

  lemma LogMultMonomial(k: bv16, a: bv8, b: bv8)
    requires k < 8
    ensures LogMult(a & Monomial(k), b) == if a & Monomial(k) == 0 then 0 else Power(k, b)
  {
    hide Power;
    if a & Monomial(k) != 0 {
      assert a & Monomial(k) == Monomial(k);
      LogMonomial(k);
      LogMultPower(Monomial(k), b);
    }
  }

  lemma LogMonomial(k: bv16)
    requires k < 8
    ensures Monomial(k) != 0 && Log(Monomial(k)) == k
  {
  }

  lemma {:induction false} LogMultBelow(a: bv8, b: bv8, n: bv16)
    requires n <= 8
    ensures LogMult(Below(a, n), b) == MulBelow(a, b, n)
  {
    hide LogMult, Add, Monomial, Power;
    if n == 0 {
      LogMultZero(b);
    } else {
      LogMultBelow(a, b, n - 1);
      LogMultMonomial(n - 1, a, b);
      LogMultAddLeft(Below(a, n - 1), a & Monomial(n - 1), b);
    }
  }

  lemma LogMultZero(b: bv8)
    ensures LogMult(0, b) == 0
  {
  }

  /** Table multiplication is multiplication of polynomials modulo
      x^8+x^4+x^3+x^2+1. */
  lemma LogMultIsMul(a: bv8, b: bv8)
    ensures LogMult(a, b) == Mul(a, b)
  {
    BelowAll(a);
    LogMultBelow(a, b, 8);
  }
}
