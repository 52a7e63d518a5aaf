/** The Golay(23,12) codeword generator and the parity fold used for AMBE. */
module Golay {
  import opened Bits
  import opened Distance

  /** One step of the divider: clear the low bit with the polynomial 0xAE3, shift. */
  function Step(cw: bv32): bv32 {
    (if cw & 1 == 1 then cw ^ 0xAE3 else cw) >> 1
  }

  function Divide(cw: bv32, n: nat): bv32 {
    if n == 0 then cw else Step(Divide(cw, n - 1))
  }

  /** The codeword: the data in the low twelve bits, the remainder above. */
  function Encode(data: bv32): bv32 {
    Join(Divide(data & 0xFFF, 12), data & 0xFFF)
  }

  function Join(remainder: bv32, data: bv32): bv32 {
    (remainder << 12) | data
  }

  lemma StepCases(cw: bv32)
    ensures cw & 1 == 1 ==> Step(cw) == (cw ^ 0xAE3) >> 1
    ensures cw & 1 != 1 ==> Step(cw) == cw >> 1
  {
  }

  /** `dmr_golay2312`. */
  method Golay2312(data: bv32) returns (r: bv32)
    ensures r == Encode(data)
  {
    hide Step, Encode, Join;
    EncodeJoins(data);
    var cw := data & 0xFFF;
    var c := cw;
    for i := 1 to 13
      invariant cw == Divide(c, i - 1)
    {
      StepCases(cw);
      if cw & 1 == 1 {
        cw := (cw ^ 0xAE3) >> 1;
      } else {
        cw := cw >> 1;
      }
    }
    JoinShifts(cw, c);
    r := (cw << 12) | c;
  }

  lemma EncodeJoins(data: bv32)
    ensures Encode(data) == Join(Divide(data & 0xFFF, 12), data & 0xFFF)
  {
  }

  lemma JoinShifts(remainder: bv32, data: bv32)
    ensures Join(remainder, data) == (remainder << 12) | data
  {
  }

  function Xor8(a: Byte, b: Byte): Byte { a ^ b }

  function FoldBytes(cw: bv32): Byte {
    Xor8(Xor8(ByteOf(cw, 0), ByteOf(cw, 1)), ByteOf(cw, 2))
  }

  function Fold4(p: Byte): Byte { p ^ (p >> 4) }

  function Fold2(p: Byte): Byte { p ^ (p >> 2) }

  function Fold1(p: Byte): Byte { p ^ (p >> 1) }

  /** `dmr_parity`: fold the three bytes, then the halves of the result. */
  function Parity(cw: bv32): Bit {
    LowBit(Fold1(Fold2(Fold4(FoldBytes(cw)))))
  }

  function LowBit(p: Byte): Bit {
    (p & 1) as Bit
  }

  // ---------- Codewords are the multiples of the polynomial ----------

  function Part(q: bool): bv32 {
    if q then 0xAE3 else 0
  }

  /** The product over GF(2) of POLY and the polynomial with coefficients `q`. */
  function Multiple(q: seq<bool>): bv32 {
    if q == [] then 0 else Part(q[0]) ^ (Multiple(q[1..]) << 1)
  }

  ghost predicate IsCodeword(w: bv32) {
    exists q: seq<bool> :: |q| == 12 && w == Multiple(q)
  }

  function Doubled(a: bv32, n: nat): bv32 {
    if n == 0 then a else Doubled(a, n - 1) << 1
  }

  /** The low bits the divider cleared in `n` steps. */
  function Quotient(cw: bv32, n: nat): (q: seq<bool>)
    ensures |q| == n
    decreases n
  {
    if n == 0 then [] else [cw & 1 == 1] + Quotient(Step(cw), n - 1)
  }

  lemma {:induction false} DivideFront(cw: bv32, n: nat)
    ensures Divide(cw, n + 1) == Divide(Step(cw), n)
  {
    hide Step;
    if n > 0 {
      DivideFront(cw, n - 1);
    }
  }

  predicate IsXor(a: bv32, b: bv32, c: bv32) {
    a == b ^ c
  }

  predicate IsNextProduct(product: bv32, low: bool, m: bv32) {
    product == Part(low) ^ (m << 1)
  }

  predicate IsDouble(a: bv32, b: bv32) {
    a == b << 1
  }

  lemma MultipleNext(q: seq<bool>)
    requires q != []
    ensures IsNextProduct(Multiple(q), q[0], Multiple(q[1..]))
  {
  }

  lemma DoubledNext(a: bv32, n: nat)
    requires n > 0
    ensures IsDouble(Doubled(a, n), Doubled(a, n - 1))
  {
  }

  lemma StepBack(cw: bv32)
    ensures Step(cw) << 1 == cw ^ Part(cw & 1 == 1)
  {
  }

  lemma EquationOfWords(cw: bv32, next: bv32, part: bv32, m: bv32, r: bv32, product: bv32, rest: bv32)
    requires next << 1 == cw ^ part && m == next ^ r
    requires product == part ^ (m << 1) && rest == r << 1
    ensures product == cw ^ rest
  {
  }

  lemma Unfold(a: bv32, b: bv32, c: bv32)
    ensures IsXor(a, b, c) <==> a == b ^ c
  {
  }

  lemma UnfoldProduct(product: bv32, low: bool, m: bv32)
    ensures IsNextProduct(product, low, m) <==> product == Part(low) ^ (m << 1)
  {
    hide Part;
  }

  lemma UnfoldDouble(a: bv32, b: bv32)
    ensures IsDouble(a, b) <==> a == b << 1
  {
  }

  lemma EquationStep(cw: bv32, m: bv32, r: bv32, product: bv32, rest: bv32)
    requires IsXor(m, Step(cw), r) && IsNextProduct(product, cw & 1 == 1, m) && IsDouble(rest, r)
    ensures IsXor(product, cw, rest)
  {
    hide *;
    StepBack(cw);
    Unfold(m, Step(cw), r);
    UnfoldProduct(product, cw & 1 == 1, m);
    UnfoldDouble(rest, r);
    EquationOfWords(cw, Step(cw), Part(cw & 1 == 1), m, r, product, rest);
    Unfold(product, cw, rest);
  }

  lemma EquationBase(cw: bv32)
    ensures IsXor(Multiple([]), cw, Doubled(cw, 0))
  {
  }

  /** The division equation: dividend = quotient * POLY + remainder * x^n. */
  lemma {:induction false} DivisionEquation(cw: bv32, n: nat)
    ensures IsXor(Multiple(Quotient(cw, n)), cw, Doubled(Divide(cw, n), n))
    decreases n
  {
    hide Multiple, Doubled, Step, IsXor, IsNextProduct, IsDouble;
    if n == 0 {
      EquationBase(cw);
    } else {
      var q, next, d := Quotient(cw, n), Step(cw), Divide(cw, n);
      var q' := Quotient(next, n - 1);
      assert q[1..] == q';
      DivisionEquation(next, n - 1);
      DivideFront(cw, n - 1);
      MultipleNext(q);
      DoubledNext(d, n);
      EquationStep(cw, Multiple(q'), Doubled(d, n - 1), Multiple(q), Doubled(d, n));
    }
  }

  lemma {:induction false} RemainderBound(cw: bv32, n: nat)
    requires cw <= 0xFFF
    ensures Divide(cw, n) <= 0xFFF && (n > 0 ==> Divide(cw, n) <= 0x7FF)
  {
    hide Step;
    if n > 0 {
      RemainderBound(cw, n - 1);
      StepBound(Divide(cw, n - 1));
    }
  }

  lemma StepBound(cw: bv32)
    requires cw <= 0xFFF
    ensures Step(cw) <= 0x7FF
  {
  }

  predicate IsTriple(a: bv32, b: bv32) {
    a == b << 3
  }

  predicate IsTwelvefold(a: bv32, b: bv32) {
    a == b << 12
  }

  lemma ThreeDoubles(a: bv32, b: bv32, c: bv32, d: bv32)
    requires IsDouble(b, a) && IsDouble(c, b) && IsDouble(d, c)
    ensures IsTriple(d, a)
  {
  }

  lemma FourTriples(a: bv32, b: bv32, c: bv32, d: bv32, e: bv32)
    requires IsTriple(b, a) && IsTriple(c, b) && IsTriple(d, c) && IsTriple(e, d)
    ensures IsTwelvefold(e, a)
  {
  }

  lemma DoubledOne(a: bv32)
    ensures IsDouble(Doubled(a, 1), a)
  {
  }

  lemma Doubled12(a: bv32)
    ensures IsTwelvefold(Doubled(a, 12), a)
  {
    hide *;
    DoubledOne(a);
    forall n: nat | 1 < n <= 12 ensures IsDouble(Doubled(a, n), Doubled(a, n - 1)) {
      DoubledNext(a, n);
    }
    ThreeDoubles(a, Doubled(a, 1), Doubled(a, 2), Doubled(a, 3));
    ThreeDoubles(Doubled(a, 3), Doubled(a, 4), Doubled(a, 5), Doubled(a, 6));
    ThreeDoubles(Doubled(a, 6), Doubled(a, 7), Doubled(a, 8), Doubled(a, 9));
    ThreeDoubles(Doubled(a, 9), Doubled(a, 10), Doubled(a, 11), Doubled(a, 12));
    FourTriples(a, Doubled(a, 3), Doubled(a, 6), Doubled(a, 9), Doubled(a, 12));
  }

  predicate IsJoin(w: bv32, r: bv32, c: bv32) {
    w == Join(r, c) && w & 0xFFF == c && w <= 0x7F_FFFF
  }

  predicate Fits(r: bv32) {
    r <= 0x7FF
  }

  lemma JoinedWords(w: bv32, c: bv32, r: bv32)
    requires w == c ^ (r << 12) && c <= 0xFFF && r <= 0x7FF
    ensures w == (r << 12) | c && w & 0xFFF == c && w <= 0x7F_FFFF
  {
  }

  lemma JoinedCodeword(product: bv32, c: bv32, r: bv32, rest: bv32)
    requires IsXor(product, c, rest) && IsTwelvefold(rest, r) && c <= 0xFFF && Fits(r)
    ensures IsJoin(product, r, c)
  {
    JoinedWords(product, c, r);
  }

  lemma RemainderFits(c: bv32)
    requires c <= 0xFFF
    ensures Fits(Divide(c, 12))
  {
    hide Divide;
    RemainderBound(c, 12);
  }

  /** Encoding twelve bits: a codeword of 23 bits that carries the data unchanged. */
  lemma EncodeTwelve(c: bv32)
    requires c <= 0xFFF
    ensures IsJoin(Multiple(Quotient(c, 12)), Divide(c, 12), c)
  {
    hide *;
    RemainderFits(c);
    DivisionEquation(c, 12);
    Doubled12(Divide(c, 12));
    JoinedCodeword(Multiple(Quotient(c, 12)), c, Divide(c, 12), Doubled(Divide(c, 12), 12));
  }

  predicate HasData(w: bv32, data: bv32) {
    w & 0xFFF == data & 0xFFF
  }

  lemma JoinHasData(w: bv32, data: bv32)
    requires IsJoin(w, Divide(data & 0xFFF, 12), data & 0xFFF)
    ensures w == Encode(data) && HasData(w, data) && w <= 0x7F_FFFF
  {
    hide Divide, Join;
  }

  /** The result is a codeword of 23 bits that carries the data unchanged. */
  lemma EncodeIsCodeword(data: bv32)
    ensures IsCodeword(Encode(data)) && HasData(Encode(data), data) && Encode(data) <= 0x7F_FFFF
  {
    hide Divide, Multiple, IsJoin, HasData, Encode;
    MaskTwelve(data);
    EncodeTwelve(data & 0xFFF);
    JoinHasData(Multiple(Quotient(data & 0xFFF, 12)), data);
  }

  lemma MaskTwelve(data: bv32)
    ensures data & 0xFFF <= 0xFFF
  {
  }

  // ---------- The data determine the codeword ----------

  function Mask(n: nat): bv32 {
    if n == 0 then 0 else (Mask(n - 1) << 1) | 1
  }

  lemma MaskBound(n: nat)
    requires n <= 12
    ensures Mask(n) <= 0xFFF && (n == 12 ==> Mask(n) == 0xFFF)
  {
    assert Mask(3) == 7;
    assert Mask(6) == 0x3F;
    assert Mask(9) == 0x1FF;
    match n { case 0 => case 1 => case 2 => case 3 => case 4 => case 5 => case 6 =>
              case 7 => case 8 => case 9 => case 10 => case 11 => case _ => }
  }

  predicate AgreeBelow(a: bv32, b: bv32, mask: bv32) {
    a & mask == b & mask
  }

  predicate IsNextMask(m: bv32, m': bv32) {
    m' == (m << 1) | 1 && m <= 0xFFF
  }

  lemma MaskNext(n: nat)
    requires 0 < n <= 12
    ensures IsNextMask(Mask(n - 1), Mask(n))
  {
    MaskBound(n - 1);
  }

  lemma LowestOfWords(a: bv32, a': bv32, p: bv32, p': bv32, b: bv32, b': bv32, m: bv32, m': bv32)
    requires a == p ^ (b << 1) && a' == p' ^ (b' << 1) && (p == 0 || p == 0xAE3) && (p' == 0 || p' == 0xAE3)
    requires a & m' == a' & m' && m' == (m << 1) | 1 && m <= 0xFFF
    ensures p == p' && b & m == b' & m
  {
  }

  lemma PartValues(q: bool, q': bool)
    ensures (Part(q) == 0 || Part(q) == 0xAE3) && (Part(q) == Part(q') ==> q == q')
  {
  }

  lemma UnfoldAgree(a: bv32, b: bv32, m: bv32)
    ensures AgreeBelow(a, b, m) <==> a & m == b & m
  {
  }

  lemma UnfoldMask(m: bv32, m': bv32)
    ensures IsNextMask(m, m') <==> m' == (m << 1) | 1 && m <= 0xFFF
  {
  }

  lemma LowestCoefficient(a: bv32, a': bv32, p: bool, p': bool, b: bv32, b': bv32, m: bv32, m': bv32)
    requires IsNextProduct(a, p, b) && IsNextProduct(a', p', b') && AgreeBelow(a, a', m') && IsNextMask(m, m')
    ensures p == p' && AgreeBelow(b, b', m)
  {
    hide *;
    UnfoldProduct(a, p, b);
    UnfoldProduct(a', p', b');
    UnfoldAgree(a, a', m');
    UnfoldMask(m, m');
    PartValues(p, p');
    PartValues(p', p);
    LowestOfWords(a, a', Part(p), Part(p'), b, b', m, m');
    UnfoldAgree(b, b', m);
  }

  lemma {:induction false} MultipleInjective(q: seq<bool>, q': seq<bool>)
    requires |q| == |q'| <= 12 && AgreeBelow(Multiple(q), Multiple(q'), Mask(|q|))
    ensures q == q'
  {
    hide *;
    if q != [] {
      MaskNext(|q|);
      MultipleNext(q);
      MultipleNext(q');
      LowestCoefficient(Multiple(q), Multiple(q'), q[0], q'[0], Multiple(q[1..]), Multiple(q'[1..]), Mask(|q| - 1),
                        Mask(|q|));
      MultipleInjective(q[1..], q'[1..]);
      assert q == [q[0]] + q[1..] && q' == [q'[0]] + q'[1..];
    }
  }

  lemma AgreeTwelve(a: bv32, b: bv32, data: bv32)
    requires HasData(a, data) && HasData(b, data)
    ensures AgreeBelow(a, b, Mask(12))
  {
    MaskBound(12);
    hide Mask;
  }

  /** The only codeword with the given data is the one the divider makes. */
  lemma CodewordUnique(w: bv32, data: bv32)
    requires IsCodeword(w) && HasData(w, data)
    ensures w == Encode(data)
  {
    hide Encode, Multiple, AgreeBelow, Mask, HasData;
    EncodeIsCodeword(data);
    var q :| |q| == 12 && w == Multiple(q);
    var q' :| |q'| == 12 && Encode(data) == Multiple(q');
    AgreeTwelve(Multiple(q), Multiple(q'), data);
    MultipleInjective(q, q');
  }

  // ---------- Linearity ----------

  function XorBits(q: seq<bool>, q': seq<bool>): (r: seq<bool>)
    requires |q| == |q'|
    ensures |r| == |q|
  {
    seq(|q|, i requires 0 <= i < |q| => q[i] != q'[i])
  }

  lemma PartXor(p: bool, p': bool)
    ensures IsXor(Part(p != p'), Part(p), Part(p'))
  {
  }

  lemma ProductOfWords(a: bv32, a': bv32, c: bv32, p: bv32, p': bv32, u: bv32, b: bv32, b': bv32, v: bv32)
    requires a == p ^ (b << 1) && a' == p' ^ (b' << 1) && c == u ^ (v << 1) && u == p ^ p' && v == b ^ b'
    ensures c == a ^ a'
  {
  }

  lemma ProductXor(a: bv32, a': bv32, c: bv32, p: bool, p': bool, b: bv32, b': bv32, v: bv32)
    requires IsNextProduct(a, p, b) && IsNextProduct(a', p', b') && IsNextProduct(c, p != p', v) && IsXor(v, b, b')
    ensures IsXor(c, a, a')
  {
    hide *;
    UnfoldProduct(a, p, b);
    UnfoldProduct(a', p', b');
    UnfoldProduct(c, p != p', v);
    PartXor(p, p');
    Unfold(Part(p != p'), Part(p), Part(p'));
    Unfold(v, b, b');
    ProductOfWords(a, a', c, Part(p), Part(p'), Part(p != p'), b, b', v);
    Unfold(c, a, a');
  }

  lemma {:induction false} MultipleXor(q: seq<bool>, q': seq<bool>)
    requires |q| == |q'|
    ensures IsXor(Multiple(XorBits(q, q')), Multiple(q), Multiple(q'))
  {
    if q == [] {
      assert q' == [] && XorBits(q, q') == [];
    } else {
      hide Multiple, IsXor, IsNextProduct;
      var r := XorBits(q, q');
      assert r[1..] == XorBits(q[1..], q'[1..]);
      MultipleXor(q[1..], q'[1..]);
      MultipleNext(q);
      MultipleNext(q');
      MultipleNext(r);
      ProductXor(Multiple(q), Multiple(q'), Multiple(r), q[0], q'[0], Multiple(q[1..]), Multiple(q'[1..]),
                 Multiple(r[1..]));
    }
  }

  lemma XorUnique(c: bv32, c': bv32, a: bv32, b: bv32)
    requires IsXor(c, a, b) && IsXor(c', a, b)
    ensures c == c'
  {
  }

  lemma CodewordXor(a: bv32, b: bv32, c: bv32)
    requires IsCodeword(a) && IsCodeword(b) && IsXor(c, a, b)
    ensures IsCodeword(c)
  {
    hide Multiple, IsXor;
    var q :| |q| == 12 && a == Multiple(q);
    var q' :| |q'| == 12 && b == Multiple(q');
    MultipleXor(q, q');
    XorUnique(c, Multiple(XorBits(q, q')), a, b);
  }

  lemma LowOfXor(w: bv32, a: bv32, b: bv32, x: bv32, y: bv32)
    requires w == a ^ b && a & 0xFFF == x & 0xFFF && b & 0xFFF == y & 0xFFF
    ensures w & 0xFFF == (x ^ y) & 0xFFF
  {
  }

  lemma DataXor(w: bv32, a: bv32, b: bv32, x: bv32, y: bv32, z: bv32)
    requires IsXor(w, a, b) && HasData(a, x) && HasData(b, y) && z == x ^ y
    ensures HasData(w, z)
  {
    LowOfXor(w, a, b, x, y);
  }

  lemma XorOf(a: bv32, b: bv32) returns (w: bv32)
    ensures IsXor(w, a, b)
  {
    w := a ^ b;
  }

  /** The encoder is linear. */
  lemma EncodeXor(x: bv32, y: bv32)
    ensures IsXor(Encode(x ^ y), Encode(x), Encode(y))
  {
    hide *;
    EncodeIsCodeword(x);
    EncodeIsCodeword(y);
    var w := XorOf(Encode(x), Encode(y));
    CodewordXor(Encode(x), Encode(y), w);
    DataXor(w, Encode(x), Encode(y), x, y, x ^ y);
    CodewordUnique(w, x ^ y);
  }

  // ---------- Bits of a word ----------

  /** A bit of the 24 that a word uses, counted from the lowest. */
  type Place24 = k: nat | k < 24
  type ByteIndex = j: nat | j < 3

  function ByteOf(w: bv32, j: ByteIndex): Byte
  {
    (match j
     case 0 => w & 0xFF
     case 1 => (w >> 8) & 0xFF
     case _ => (w >> 16) & 0xFF) as Byte
  }

  /** Bit `k` of a word of 24 bits, counted from the lowest. */
  function BitOf(w: bv32, k: Place24): Bit
  {
    ByteBit(ByteOf(w, k / 8), 7 - k % 8)
  }

  lemma ByteOfXor(a: bv32, b: bv32, j: ByteIndex)
    ensures ByteOf(a ^ b, j) == ByteOf(a, j) ^ ByteOf(b, j)
  {
    match j { case 0 => case 1 => case _ => }
  }

  lemma ByteBitXor(x: Byte, y: Byte, c: BitIndex)
    ensures ByteBit(x ^ y, c) == ByteBit(x, c) ^ ByteBit(y, c)
  {
    match c { case 0 => case 1 => case 2 => case 3 => case 4 => case 5 => case 6 => case _ => }
  }

  lemma ByteBitXor8(x: Byte, y: Byte, c: BitIndex)
    ensures ByteBit(Xor8(x, y), c) == ByteBit(x, c) ^ ByteBit(y, c)
  {
    hide ByteBit;
    ByteBitXor(x, y, c);
  }

  lemma BitOfXor(a: bv32, b: bv32, k: Place24)
    ensures BitOf(a ^ b, k) == BitOf(a, k) ^ BitOf(b, k)
  {
    hide ByteOf, ByteBit, Xor8;
    ByteOfXor8(a, b, k / 8);
    ByteBitXor8(ByteOf(a, k / 8), ByteOf(b, k / 8), 7 - k % 8);
  }

  lemma BitOfShift(a: bv32, k: nat)
    requires k < 23
    ensures BitOf(a >> 1, k) == BitOf(a, k + 1)
  {
    hide BitOf;
    if k < 8 {
      BitOfShiftLow(a, k);
    } else if k < 16 {
      BitOfShiftMiddle(a, k);
    } else {
      BitOfShiftHigh(a, k);
    }
  }

  lemma BitOfShiftLow(a: bv32, k: nat)
    requires k < 8
    ensures BitOf(a >> 1, k) == BitOf(a, k + 1)
  {
    match k { case 0 => case 1 => case 2 => case 3 => case 4 => case 5 => case 6 => case _ => }
  }

  lemma BitOfShiftMiddle(a: bv32, k: nat)
    requires 8 <= k < 16
    ensures BitOf(a >> 1, k) == BitOf(a, k + 1)
  {
    match k - 8 { case 0 => case 1 => case 2 => case 3 => case 4 => case 5 => case 6 => case _ => }
  }

  lemma BitOfShiftHigh(a: bv32, k: nat)
    requires 16 <= k < 23
    ensures BitOf(a >> 1, k) == BitOf(a, k + 1)
  {
    match k - 16 { case 0 => case 1 => case 2 => case 3 => case 4 => case 5 => case _ => }
  }

  /** The word whose bit `k` is `d[k]`: the loops that shift bits in, last first. */
  function WordOf(d: seq<Bit>): bv32 {
    if d == [] then 0 else (WordOf(d[1..]) << 1) | (d[0] as bv32)
  }

  lemma BitOfPush(a: bv32, b: Bit, k: Place24)
    ensures BitOf((a << 1) | (b as bv32), k) == if k == 0 then b else BitOf(a, k - 1)
  {
    if k == 0 {
    } else {
      BitOfShift((a << 1) | (b as bv32), k - 1);
      hide ByteBit;
      PushShift(a, b, (k - 1) / 8);
    }
  }

  lemma PushShift(a: bv32, b: Bit, j: ByteIndex)
    ensures ByteOf(((a << 1) | (b as bv32)) >> 1, j) == ByteOf(a, j)
  {
    match j { case 0 => case 1 => case _ => }
  }

  lemma ZeroBits(k: Place24)
    ensures BitOf(0, k) == 0
  {
    match k % 8 { case 0 => case 1 => case 2 => case 3 => case 4 => case 5 => case 6 => case _ => }
  }

  lemma {:induction false} WordBits(d: seq<Bit>, k: Place24)
    ensures BitOf(WordOf(d), k) == if k < |d| then d[k] else 0
  {
    hide BitOf;
    if d == [] {
      ZeroBits(k);
    } else {
      BitOfPush(WordOf(d[1..]), d[0], k);
      if k > 0 {
        WordBits(d[1..], k - 1);
      }
    }
  }

  /** The low 24 bits, lowest first. */
  function LowBits(w: bv32): (bits: seq<Bit>)
    ensures |bits| == 24
  {
    seq(24, k requires 0 <= k < 24 => BitOf(w, k))
  }

  // ---------- Minimum weight ----------

  /** A codeword with its parity bit on top. */
  function Extend(w: bv32): bv32 {
    w | (Parity(w) as bv32 << 23)
  }

  function Extended(data: bv32): bv32 {
    Extend(Encode(data))
  }

  /** The division, step by step, without recursion. */
  function Remainder(d: bv32): bv32 {
    Step(Step(Step(Step(Step(Step(Step(Step(Step(Step(Step(Step(d))))))))))))
  }

  lemma DivideIsRemainder(d: bv32)
    ensures Divide(d, 12) == Remainder(d)
  {
    hide Step;
    assert Divide(d, 1) == Step(d);
    assert Divide(d, 3) == Step(Step(Divide(d, 1)));
    assert Divide(d, 5) == Step(Step(Divide(d, 3)));
    assert Divide(d, 7) == Step(Step(Divide(d, 5)));
    assert Divide(d, 9) == Step(Step(Divide(d, 7)));
    assert Divide(d, 11) == Step(Step(Divide(d, 9)));
  }

  /** The number of one bits in a byte. */
  function Ones8(x: Byte): Byte {
    var a := (x & 0x55) + ((x >> 1) & 0x55);
    var b := (a & 0x33) + ((a >> 2) & 0x33);
    (b & 0x0F) + (b >> 4)
  }

  predicate HeavySum(a: Byte, b: Byte, c: Byte) {
    a + b + c >= 8
  }

  /** At least eight of the 24 bits are one. */
  ghost predicate HeavyWord(w: bv32) {
    HeavySum(Ones8(ByteOf(w, 0)), Ones8(ByteOf(w, 1)), Ones8(ByteOf(w, 2)))
  }

  /** The extended codeword of the twelve bits `d` weighs at least eight. */
  ghost predicate Heavy(d: bv32) {
    HeavyWord(Extend(Join(Remainder(d), d)))
  }

  lemma Heavy0(d: bv32)
    requires 0 < d < 0x200
    ensures Heavy(d)
  {
    assert HeavyWord(Extend(Join(Remainder(d), d)));
  }

  lemma Heavy1(d: bv32)
    requires 0x200 <= d < 0x400
    ensures Heavy(d)
  {
    assert HeavyWord(Extend(Join(Remainder(d), d)));
  }

  lemma Heavy2(d: bv32)
    requires 0x400 <= d < 0x600
    ensures Heavy(d)
  {
    assert HeavyWord(Extend(Join(Remainder(d), d)));
  }

  lemma Heavy3(d: bv32)
    requires 0x600 <= d < 0x800
    ensures Heavy(d)
  {
    assert HeavyWord(Extend(Join(Remainder(d), d)));
  }

  lemma Heavy4(d: bv32)
    requires 0x800 <= d < 0xa00
    ensures Heavy(d)
  {
    assert HeavyWord(Extend(Join(Remainder(d), d)));
  }

  lemma Heavy5(d: bv32)
    requires 0xa00 <= d < 0xc00
    ensures Heavy(d)
  {
    assert HeavyWord(Extend(Join(Remainder(d), d)));
  }

  lemma Heavy6(d: bv32)
    requires 0xc00 <= d < 0xe00
    ensures Heavy(d)
  {
    assert HeavyWord(Extend(Join(Remainder(d), d)));
  }

  lemma Heavy7(d: bv32)
    requires 0xe00 <= d < 0x1000
    ensures Heavy(d)
  {
    assert HeavyWord(Extend(Join(Remainder(d), d)));
  }

  lemma HeavyData(d: bv32)
    requires 0 < d <= 0xFFF
    ensures Heavy(d)
  {
    hide Heavy;
    if d < 0x200 {
      Heavy0(d);
    } else if d < 0x400 {
      Heavy1(d);
    } else if d < 0x600 {
      Heavy2(d);
    } else if d < 0x800 {
      Heavy3(d);
    } else if d < 0xA00 {
      Heavy4(d);
    } else if d < 0xC00 {
      Heavy5(d);
    } else if d < 0xE00 {
      Heavy6(d);
    } else {
      Heavy7(d);
    }
  }

  /** No extended codeword but zero has fewer than eight one bits. */
  lemma ExtendedIsHeavy(data: bv32)
    requires data & 0xFFF != 0
    ensures HeavyWord(Extended(data))
  {
    hide HeavyWord, Extend, Remainder, Divide, Join;
    MaskTwelve(data);
    HeavyData(data & 0xFFF);
    DivideIsRemainder(data & 0xFFF);
  }

  function OnesUpTo(y: Byte, n: nat): nat
    requires n <= 8
  {
    if n == 0 then 0 else OnesUpTo(y, n - 1) + if ByteBit(y, n - 1) == 1 then 1 else 0
  }

  function AsByte(n: nat): Byte {
    match n case 0 => 0 case 1 => 1 case 2 => 2 case 3 => 3 case 4 => 4 case 5 => 5 case 6 => 6 case 7 => 7 case _ => 8
  }

  lemma OnesCounted(y: Byte)
    ensures OnesUpTo(y, 8) <= 8 && Ones8(y) == AsByte(OnesUpTo(y, 8))
  {
    assert OnesUpTo(y, 1) == if ByteBit(y, 0) == 1 then 1 else 0;
    assert OnesUpTo(y, 3) == OnesUpTo(y, 1) + (if ByteBit(y, 1) == 1 then 1 else 0)
           + (if ByteBit(y, 2) == 1 then 1 else 0);
    assert OnesUpTo(y, 5) == OnesUpTo(y, 3) + (if ByteBit(y, 3) == 1 then 1 else 0)
           + (if ByteBit(y, 4) == 1 then 1 else 0);
    assert OnesUpTo(y, 7) == OnesUpTo(y, 5) + (if ByteBit(y, 5) == 1 then 1 else 0)
           + (if ByteBit(y, 6) == 1 then 1 else 0);
    assert OnesUpTo(y, 8) == (if ByteBit(y, 0) == 1 then 1 else 0) + (if ByteBit(y, 1) == 1 then 1 else 0)
      + (if ByteBit(y, 2) == 1 then 1 else 0) + (if ByteBit(y, 3) == 1 then 1 else 0)
      + (if ByteBit(y, 4) == 1 then 1 else 0) + (if ByteBit(y, 5) == 1 then 1 else 0)
      + (if ByteBit(y, 6) == 1 then 1 else 0) + (if ByteBit(y, 7) == 1 then 1 else 0);
  }

  lemma SumOfBytes(a: nat, b: nat, c: nat)
    requires a <= 8 && b <= 8 && c <= 8 && HeavySum(AsByte(a), AsByte(b), AsByte(c))
    ensures a + b + c >= 8
  {
  }

  ghost function OnesSet(y: Byte, n: nat): set<nat>
    requires n <= 8
  {
    set c: nat | c < n && ByteBit(y, c) == 1
  }

  lemma {:induction false} OnesSetSize(y: Byte, n: nat)
    requires n <= 8
    ensures |OnesSet(y, n)| == OnesUpTo(y, n)
  {
    hide ByteBit;
    if n == 0 {
      assert OnesSet(y, 0) == {};
    } else {
      OnesSetSize(y, n - 1);
      if ByteBit(y, n - 1) == 1 {
        assert OnesSet(y, n) == OnesSet(y, n - 1) + {n - 1};
      } else {
        assert OnesSet(y, n) == OnesSet(y, n - 1);
      }
    }
  }

  /** The positions of the one bits of byte `j` of `w`. */
  ghost function Places(w: bv32, j: ByteIndex): set<nat>
  {
    Images(seq(8, c => 8 * j + 7 - c), OnesSet(ByteOf(w, j), 8))
  }

  lemma PlacesSize(w: bv32, j: ByteIndex)
    ensures |Places(w, j)| == OnesUpTo(ByteOf(w, j), 8)
  {
    hide ByteOf, ByteBit, OnesUpTo;
    OnesSetSize(ByteOf(w, j), 8);
    ImagesSize(seq(8, c => 8 * j + 7 - c), OnesSet(ByteOf(w, j), 8));
  }

  /** `w` is the XOR of `a` and `b` in its low 24 bits. */
  ghost predicate BitwiseXor(w: bv32, a: bv32, b: bv32) {
    forall k: nat :: k < 24 ==> BitOf(w, k) == BitOf(a, k) ^ BitOf(b, k)
  }

  /** A one bit of the XOR is a place where the two words differ. */
  lemma RowDiffers(a: bv32, b: bv32, w: bv32, j: ByteIndex, c: BitIndex)
    requires BitwiseXor(w, a, b) && ByteBit(ByteOf(w, j), c) == 1
    ensures LowBits(a)[8 * j + 7 - c] != LowBits(b)[8 * j + 7 - c]
  {
    hide ByteBit, ByteOf;
    var k := 8 * j + 7 - c;
    assert k / 8 == j && 7 - k % 8 == c;
    assert BitOf(w, k) == 1;
  }

  lemma PlaceDiffers(a: bv32, b: bv32, w: bv32, j: ByteIndex, i: nat)
    requires BitwiseXor(w, a, b) && i in Places(w, j)
    ensures 8 * j <= i < 8 * j + 8 && LowBits(a)[i] != LowBits(b)[i]
  {
    hide ByteOf, ByteBit, LowBits, BitwiseXor;
    RowDiffers(a, b, w, j, 8 * j + 7 - i);
  }

  lemma PlacesDiffer(a: bv32, b: bv32, w: bv32, j: ByteIndex)
    requires BitwiseXor(w, a, b)
    ensures Places(w, j) <= Differing(LowBits(a), LowBits(b))
    ensures forall i: nat | i in Places(w, j) :: 8 * j <= i < 8 * j + 8
  {
    hide LowBits, Places, BitwiseXor;
    forall i: nat | i in Places(w, j) ensures 8 * j <= i < 8 * j + 8 && LowBits(a)[i] != LowBits(b)[i] {
      PlaceDiffers(a, b, w, j, i);
    }
  }

  lemma DisjointSizes(a: set<nat>, b: set<nat>, c: set<nat>, d: set<nat>)
    requires a !! b && (a + b) !! c && a <= d && b <= d && c <= d
    ensures |a| + |b| + |c| <= |d|
  {
    SubsetSize(a + b + c, d);
  }

  lemma WeightIsCount(w: bv32)
    requires HeavyWord(w)
    ensures OnesUpTo(ByteOf(w, 0), 8) + OnesUpTo(ByteOf(w, 1), 8) + OnesUpTo(ByteOf(w, 2), 8) >= 8
  {
    hide ByteOf, Ones8, OnesUpTo, AsByte, HeavySum;
    OnesCounted(ByteOf(w, 0));
    OnesCounted(ByteOf(w, 1));
    OnesCounted(ByteOf(w, 2));
    SumOfBytes(OnesUpTo(ByteOf(w, 0), 8), OnesUpTo(ByteOf(w, 1), 8), OnesUpTo(ByteOf(w, 2), 8));
  }

  /** Words that XOR to a heavy word are eight apart. */
  lemma HeavyDistance(a: bv32, b: bv32, w: bv32)
    requires BitwiseXor(w, a, b) && HeavyWord(w)
    ensures Dist(LowBits(a), LowBits(b)) >= 8
  {
    hide ByteOf, OnesUpTo, HeavyWord, LowBits, Places, Differing, BitwiseXor;
    WeightIsCount(w);
    PlacesSize(w, 0);
    PlacesSize(w, 1);
    PlacesSize(w, 2);
    PlacesDiffer(a, b, w, 0);
    PlacesDiffer(a, b, w, 1);
    PlacesDiffer(a, b, w, 2);
    DisjointSizes(Places(w, 0), Places(w, 1), Places(w, 2), Differing(LowBits(a), LowBits(b)));
  }

  // ---------- Distance of extended codewords ----------

  lemma Xor8Interchange(a: Byte, b: Byte, c: Byte, d: Byte)
    ensures Xor8(Xor8(a, b), Xor8(c, d)) == Xor8(Xor8(a, c), Xor8(b, d))
  {
    hide Xor8;
    Xor8Associates(a, b, Xor8(c, d));
    Xor8Associates(b, c, d);
    Xor8Associates(c, b, d);
    Xor8Associates(a, c, Xor8(b, d));
    Xor8Commutes(b, c);
  }

  lemma Xor8Associates(a: Byte, b: Byte, c: Byte)
    ensures Xor8(Xor8(a, b), c) == Xor8(a, Xor8(b, c))
  {
  }

  lemma Xor8Commutes(a: Byte, b: Byte)
    ensures Xor8(a, b) == Xor8(b, a)
  {
  }

  lemma ByteOfXor8(a: bv32, b: bv32, j: ByteIndex)
    ensures ByteOf(a ^ b, j) == Xor8(ByteOf(a, j), ByteOf(b, j))
  {
    hide ByteOf;
    ByteOfXor(a, b, j);
  }

  lemma FoldBytesXor(a: bv32, b: bv32)
    ensures FoldBytes(a ^ b) == Xor8(FoldBytes(a), FoldBytes(b))
  {
    hide ByteOf, Xor8;
    ByteOfXor8(a, b, 0);
    ByteOfXor8(a, b, 1);
    ByteOfXor8(a, b, 2);
    Xor8Interchange(ByteOf(a, 0), ByteOf(b, 0), ByteOf(a, 1), ByteOf(b, 1));
    Xor8Interchange(Xor8(ByteOf(a, 0), ByteOf(a, 1)), Xor8(ByteOf(b, 0), ByteOf(b, 1)), ByteOf(a, 2), ByteOf(b, 2));
  }

  lemma FoldsXor(a: Byte, b: Byte)
    ensures Fold4(Xor8(a, b)) == Xor8(Fold4(a), Fold4(b))
    ensures Fold2(Xor8(a, b)) == Xor8(Fold2(a), Fold2(b))
    ensures Fold1(Xor8(a, b)) == Xor8(Fold1(a), Fold1(b))
    ensures LowBit(Xor8(a, b)) == LowBit(a) ^ LowBit(b)
  {
  }

  lemma ParityXor(a: bv32, b: bv32)
    ensures Parity(a ^ b) == Parity(a) ^ Parity(b)
  {
    hide FoldBytes, Xor8, Fold4, Fold2, Fold1, LowBit;
    FoldBytesXor(a, b);
    var x, y := FoldBytes(a), FoldBytes(b);
    FoldsXor(x, y);
    FoldsXor(Fold4(x), Fold4(y));
    FoldsXor(Fold2(Fold4(x)), Fold2(Fold4(y)));
    FoldsXor(Fold1(Fold2(Fold4(x))), Fold1(Fold2(Fold4(y))));
  }

  lemma ExtendBits(w: bv32, p: Bit, k: Place24)
    requires w <= 0x7F_FFFF
    ensures BitOf(w | (p as bv32 << 23), k) == if k < 23 then BitOf(w, k) else p
  {
    match k % 8 { case 0 => case 1 => case 2 => case 3 => case 4 => case 5 => case 6 => case _ => }
  }

  lemma EncodeBound(x: bv32)
    ensures Encode(x) <= 0x7F_FFFF
  {
    hide IsCodeword, HasData, Encode;
    EncodeIsCodeword(x);
  }

  lemma XorBits32(w: bv32, a: bv32, b: bv32, k: Place24)
    requires IsXor(w, a, b)
    ensures BitOf(w, k) == BitOf(a, k) ^ BitOf(b, k)
  {
    hide BitOf;
    BitOfXor(a, b, k);
  }

  lemma ParityXor32(w: bv32, a: bv32, b: bv32)
    requires IsXor(w, a, b)
    ensures Parity(w) == Parity(a) ^ Parity(b)
  {
    hide Parity;
    ParityXor(a, b);
  }

  lemma ExtendedBit(x: bv32, k: Place24)
    ensures BitOf(Extended(x), k) == if k < 23 then BitOf(Encode(x), k) else Parity(Encode(x))
  {
    hide Encode, BitOf, Parity;
    EncodeBound(x);
    ExtendBits(Encode(x), Parity(Encode(x)), k);
  }

  /** Extension by parity is linear as well. */
  lemma ExtendedXor(x: bv32, y: bv32)
    ensures BitwiseXor(Extended(x ^ y), Extended(x), Extended(y))
  {
    hide Encode, BitOf, IsXor, Parity, Extended;
    EncodeXor(x, y);
    ParityXor32(Encode(x ^ y), Encode(x), Encode(y));
    forall k: nat | k < 24
      ensures BitOf(Extended(x ^ y), k) == BitOf(Extended(x), k) ^ BitOf(Extended(y), k)
    {
      ExtendedBit(x, k);
      ExtendedBit(y, k);
      ExtendedBit(x ^ y, k);
      XorBits32(Encode(x ^ y), Encode(x), Encode(y), k);
    }
  }

  /** Words whose data differ are encoded at least eight bits apart. */
  lemma ExtendedDistance(x: bv32, y: bv32)
    requires (x ^ y) & 0xFFF != 0
    ensures Dist(LowBits(Extended(x)), LowBits(Extended(y))) >= 8
  {
    hide Extended, BitwiseXor, HeavyWord, LowBits, Dist;
    ExtendedXor(x, y);
    ExtendedIsHeavy(x ^ y);
    HeavyDistance(Extended(x), Extended(y), Extended(x ^ y));
  }

  // ---------- Systematic position of the data ----------

  lemma DataBits(w: bv32, data: bv32, k: nat)
    requires HasData(w, data) && k < 12
    ensures BitOf(w, k) == BitOf(data, k)
  {
    match k { case 0 => case 1 => case 2 => case 3 => case 4 => case 5 => case 6 =>
              case 7 => case 8 => case 9 => case 10 => case _ => }
  }

  lemma LowBytes(a: bv32, b: bv32)
    requires ByteOf(a, 0) == ByteOf(b, 0)
    requires ByteOf(a, 1) & 0x0F == ByteOf(b, 1) & 0x0F
    ensures HasData(a, b)
  {
  }

  lemma LowNibble(x: Byte, y: Byte)
    requires forall c :: 4 <= c < 8 ==> ByteBit(x, c) == ByteBit(y, c)
    ensures x & 0x0F == y & 0x0F
  {
    assert ByteBit(x, 4) == ByteBit(y, 4) && ByteBit(x, 5) == ByteBit(y, 5);
    assert ByteBit(x, 6) == ByteBit(y, 6) && ByteBit(x, 7) == ByteBit(y, 7);
  }

  /** Twelve equal low bits are equal data. */
  lemma SameDataBits(a: bv32, b: bv32)
    requires forall k: nat :: k < 12 ==> BitOf(a, k) == BitOf(b, k)
    ensures HasData(a, b)
  {
    hide ByteOf, ByteBit;
    forall c | 0 <= c < 8 ensures ByteBit(ByteOf(a, 0), c) == ByteBit(ByteOf(b, 0), c) {
      assert BitOf(a, 7 - c) == BitOf(b, 7 - c);
    }
    ByteExtensional(ByteOf(a, 0), ByteOf(b, 0));
    forall c | 4 <= c < 8 ensures ByteBit(ByteOf(a, 1), c) == ByteBit(ByteOf(b, 1), c) {
      assert BitOf(a, 15 - c) == BitOf(b, 15 - c);
    }
    LowNibble(ByteOf(a, 1), ByteOf(b, 1));
    LowBytes(a, b);
  }

  /** Encoding leaves the twelve data bits where they are. */
  lemma EncodeKeepsData(d: seq<Bit>, k: nat)
    requires |d| == 12 && k < 12
    ensures BitOf(Encode(WordOf(d)), k) == d[k] && BitOf(Extended(WordOf(d)), k) == d[k]
  {
    hide Encode, BitOf, HasData, IsCodeword, Extended, Parity;
    EncodeIsCodeword(WordOf(d));
    DataBits(Encode(WordOf(d)), WordOf(d), k);
    WordBits(d, k);
    ExtendedBit(WordOf(d), k);
  }

  /** A codeword is the encoding of its own low twelve bits. */
  lemma CodewordOfItsBits(w: bv32, d: seq<Bit>)
    requires IsCodeword(w) && |d| == 12 && forall k: nat :: k < 12 ==> d[k] == BitOf(w, k)
    ensures w == Encode(WordOf(d))
  {
    hide Encode, BitOf, HasData, IsCodeword;
    forall k: nat | k < 12 ensures BitOf(w, k) == BitOf(WordOf(d), k) {
      WordBits(d, k);
    }
    SameDataBits(w, WordOf(d));
    CodewordUnique(w, WordOf(d));
  }
}
