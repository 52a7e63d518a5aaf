/** Binary linear codes given by parity checks.  A check is a row of bits that
    selects positions; a word meets it when the selected bits XOR to zero. */
module ParityCheck {
  import opened Bits
  import opened Distance

  type Check = seq<Bit>

  /** The XOR of the bits that `row` selects among the first `n` of `s`. */
  function Partial(row: Check, s: seq<Bit>, n: nat): Bit
    requires n <= |row| && n <= |s|
  {
    if n == 0 then 0 else Partial(row, s, n - 1) ^ (row[n - 1] & s[n - 1])
  }

  function Parity(row: Check, s: seq<Bit>): Bit
    requires |row| == |s|
  {
    Partial(row, s, |s|)
  }

  lemma {:induction false} PartialPrefix(row: Check, row': Check, s: seq<Bit>, s': seq<Bit>, n: nat)
    requires n <= |row| && n <= |s| && row <= row' && s <= s'
    ensures Partial(row, s, n) == Partial(row', s', n)
  {
    if n > 0 {
      PartialPrefix(row, row', s, s', n - 1);
    }
  }

  /** `h` is a set of checks for words of `n` bits. */
  ghost predicate Checks(h: seq<Check>, n: nat) {
    forall r :: 0 <= r < |h| ==> |h[r]| == n
  }

  /** `s` meets every check of `h`. */
  ghost predicate InCode(h: seq<Check>, s: seq<Bit>) {
    Checks(h, |s|) && forall r :: 0 <= r < |h| ==> Parity(h[r], s) == 0
  }

  function XorWord(s: seq<Bit>, t: seq<Bit>): (r: seq<Bit>)
    requires |s| == |t|
    ensures |r| == |s|
  {
    seq(|s|, i requires 0 <= i < |s| => s[i] ^ t[i])
  }

  lemma {:induction false} PartialXor(row: Check, s: seq<Bit>, t: seq<Bit>, n: nat)
    requires |s| == |t| && |row| == |s| && n <= |row|
    ensures Partial(row, XorWord(s, t), n) == Partial(row, s, n) ^ Partial(row, t, n)
  {
    if n > 0 {
      PartialXor(row, s, t, n - 1);
    }
  }

  /** A linear code is closed under XOR. */
  lemma InCodeXor(h: seq<Check>, s: seq<Bit>, t: seq<Bit>)
    requires |s| == |t| && InCode(h, s) && InCode(h, t)
    ensures InCode(h, XorWord(s, t))
  {
    forall r | 0 <= r < |h| ensures Parity(h[r], XorWord(s, t)) == 0 {
      PartialXor(h[r], s, t, |h[r]|);
    }
  }

  lemma {:induction false} PartialUpdate(row: Check, s: seq<Bit>, i: nat, v: Bit, n: nat)
    requires i < |s| && |row| == |s| && n <= |row|
    ensures Partial(row, s[i := v], n)
            == if i < n then Partial(row, s, n) ^ (row[i] & (s[i] ^ v)) else Partial(row, s, n)
  {
    if n > 0 {
      PartialUpdate(row, s, i, v, n - 1);
    }
  }

  /** Changing one bit changes the parities of the checks that select it. */
  lemma ParityUpdate(row: Check, s: seq<Bit>, i: nat, v: Bit)
    requires i < |s| && |row| == |s| && s[i] != v
    ensures Parity(row, s[i := v]) == Parity(row, s) ^ row[i]
  {
    PartialUpdate(row, s, i, v, |row|);
  }

  /** The two words differ at no position outside `w`. */
  ghost predicate AgreeExcept(s: seq<Bit>, t: seq<Bit>, w: seq<nat>)
    requires |s| == |t|
  {
    forall i: nat :: i < |s| && i !in w ==> s[i] == t[i]
  }

  lemma AgreeExceptOne(row: Check, s: seq<Bit>, t: seq<Bit>, i: nat)
    requires |s| == |t| && |row| == |s| && i < |s| && AgreeExcept(s, t, [i]) && s[i] != t[i]
    ensures Parity(row, t) == Parity(row, s) ^ row[i]
  {
    assert t == s[i := t[i]];
    ParityUpdate(row, s, i, t[i]);
  }

  lemma AgreeExceptTwo(row: Check, s: seq<Bit>, t: seq<Bit>, i: nat, j: nat)
    requires |s| == |t| && |row| == |s| && i < |s| && j < |s| && i != j
    requires AgreeExcept(s, t, [i, j]) && s[i] != t[i] && s[j] != t[j]
    ensures Parity(row, t) == Parity(row, s) ^ row[i] ^ row[j]
  {
    var u := s[i := t[i]];
    AgreeExceptOne(row, s, u, i);
    AgreeExceptOne(row, u, t, j);
  }

  lemma AgreeExceptThree(row: Check, s: seq<Bit>, t: seq<Bit>, i: nat, j: nat, k: nat)
    requires |s| == |t| && |row| == |s| && i < |s| && j < |s| && k < |s| && i != j && i != k && j != k
    requires AgreeExcept(s, t, [i, j, k]) && s[i] != t[i] && s[j] != t[j] && s[k] != t[k]
    ensures Parity(row, t) == Parity(row, s) ^ row[i] ^ row[j] ^ row[k]
  {
    var u := s[i := t[i]];
    AgreeExceptOne(row, s, u, i);
    AgreeExceptTwo(row, u, t, j, k);
  }

  /** Some check tells an error at `i` from no error. */
  ghost predicate Detects(h: seq<Check>, i: nat)
    requires forall r :: 0 <= r < |h| ==> i < |h[r]|
  {
    exists r :: 0 <= r < |h| && h[r][i] == 1
  }

  /** Some check tells an error at `i` from one at `j`. */
  ghost predicate Parts(h: seq<Check>, i: nat, j: nat)
    requires forall r :: 0 <= r < |h| ==> i < |h[r]| && j < |h[r]|
  {
    exists r :: 0 <= r < |h| && h[r][i] != h[r][j]
  }

  /** Every single error, and every pair of errors, fails some check. */
  ghost predicate Separates(h: seq<Check>, n: nat) {
    && Checks(h, n)
    && (forall i: nat :: i < n ==> Detects(h, i))
    && (forall i: nat, j: nat :: i < j < n ==> Parts(h, i, j))
  }

  /** Every position is in an odd number of checks. */
  ghost predicate OddColumns(h: seq<Check>, n: nat) {
    Checks(h, n) && forall i: nat :: i < n ==> ColumnSum(h, i, |h|) == 1
  }

  function ColumnSum(h: seq<Check>, i: nat, m: nat): Bit
    requires m <= |h| && forall r :: 0 <= r < |h| ==> i < |h[r]|
  {
    if m == 0 then 0 else ColumnSum(h, i, m - 1) ^ h[m - 1][i]
  }

  /** With odd columns, a triple of errors fails an odd number of checks. */
  lemma {:induction false} OddTriple(h: seq<Check>, i: nat, j: nat, k: nat, m: nat) returns (r: nat)
    requires m <= |h| && forall r :: 0 <= r < |h| ==> i < |h[r]| && j < |h[r]| && k < |h[r]|
    requires ColumnSum(h, i, m) ^ ColumnSum(h, j, m) ^ ColumnSum(h, k, m) == 1
    ensures r < |h| && h[r][i] ^ h[r][j] ^ h[r][k] == 1
  {
    if h[m - 1][i] ^ h[m - 1][j] ^ h[m - 1][k] == 1 {
      r := m - 1;
    } else {
      r := OddTriple(h, i, j, k, m - 1);
    }
  }

  lemma OneErrorDetected(h: seq<Check>, s: seq<Bit>, t: seq<Bit>, i: nat)
    requires |s| == |t| && Separates(h, |s|) && InCode(h, s) && InCode(h, t)
    requires i < |s| && s[i] != t[i]
    ensures !AgreeExcept(s, t, [i])
  {
    assert Detects(h, i);
    var r :| 0 <= r < |h| && h[r][i] == 1;
    if AgreeExcept(s, t, [i]) {
      AgreeExceptOne(h[r], s, t, i);
    }
  }

  lemma TwoErrorsDetected(h: seq<Check>, s: seq<Bit>, t: seq<Bit>, i: nat, j: nat)
    requires |s| == |t| && Separates(h, |s|) && InCode(h, s) && InCode(h, t)
    requires i < |s| && j < |s| && i != j && s[i] != t[i] && s[j] != t[j]
    ensures !AgreeExcept(s, t, [i, j])
  {
    assert Parts(h, i, j) || Parts(h, j, i);
    var r :| 0 <= r < |h| && h[r][i] != h[r][j];
    if AgreeExcept(s, t, [i, j]) {
      AgreeExceptTwo(h[r], s, t, i, j);
    }
  }

  lemma ThreeErrorsDetected(h: seq<Check>, s: seq<Bit>, t: seq<Bit>, i: nat, j: nat, k: nat)
    requires |s| == |t| && OddColumns(h, |s|) && InCode(h, s) && InCode(h, t)
    requires i < |s| && j < |s| && k < |s| && i != j && i != k && j != k
    requires s[i] != t[i] && s[j] != t[j] && s[k] != t[k]
    ensures !AgreeExcept(s, t, [i, j, k])
  {
    var r := OddTriple(h, i, j, k, |h|);
    if AgreeExcept(s, t, [i, j, k]) {
      AgreeExceptThree(h[r], s, t, i, j, k);
    }
  }

  /** A code whose checks separate the positions has minimum distance three. */
  lemma DistanceThree(h: seq<Check>, s: seq<Bit>, t: seq<Bit>) returns (w: seq<nat>)
    requires |s| == |t| && Separates(h, |s|) && InCode(h, s) && InCode(h, t) && s != t
    ensures |w| == 3 && Witness(s, t, w)
  {
    var i: nat :| i < |s| && s[i] != t[i];
    OneErrorDetected(h, s, t, i);
    var j: nat :| j < |s| && j !in [i] && s[j] != t[j];
    TwoErrorsDetected(h, s, t, i, j);
    var k: nat :| k < |s| && k !in [i, j] && s[k] != t[k];
    w := [i, j, k];
  }

  /** If every position is in an odd number of checks, the minimum distance is four. */
  lemma DistanceFour(h: seq<Check>, s: seq<Bit>, t: seq<Bit>) returns (w: seq<nat>)
    requires |s| == |t| && Separates(h, |s|) && OddColumns(h, |s|) && InCode(h, s) && InCode(h, t) && s != t
    ensures |w| == 4 && Witness(s, t, w)
  {
    var v := DistanceThree(h, s, t);
    ThreeErrorsDetected(h, s, t, v[0], v[1], v[2]);
    var l: nat :| l < |s| && l !in [v[0], v[1], v[2]] && s[l] != t[l];
    w := v + [l];
  }
}
