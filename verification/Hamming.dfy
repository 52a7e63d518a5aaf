/** The three Hamming encoders and the codes they produce. */
module Hamming {
  import opened Bits
  import opened ParityCheck

  function Ham15113(d: Bits11): (c: seq<Bit>)
    ensures |c| == 4
  {
    [d[0]^d[1]^d[2]^d[3]^d[5]^d[7]^d[8],
     d[1]^d[2]^d[3]^d[4]^d[6]^d[8]^d[9],
     d[2]^d[3]^d[4]^d[5]^d[7]^d[9]^d[10],
     d[0]^d[1]^d[2]^d[4]^d[6]^d[7]^d[10]]
  }

  function Ham1393(d: Bits9): (c: seq<Bit>)
    ensures |c| == 4
  {
    [d[0]^d[1]^d[3]^d[5]^d[6],
     d[0]^d[1]^d[2]^d[4]^d[6]^d[7],
     d[0]^d[1]^d[2]^d[3]^d[5]^d[7]^d[8],
     d[0]^d[2]^d[4]^d[5]^d[8]]
  }

  function Ham16114(d: Bits11): (c: seq<Bit>)
    ensures |c| == 5
  {
    [d[0]^d[1]^d[2]^d[3]^d[5]^d[7]^d[8],
     d[1]^d[2]^d[3]^d[4]^d[6]^d[8]^d[9],
     d[2]^d[3]^d[4]^d[5]^d[7]^d[9]^d[10],
     d[0]^d[1]^d[2]^d[4]^d[6]^d[7]^d[10],
     d[0]^d[2]^d[5]^d[6]^d[8]^d[9]^d[10]]
  }

  // The parity checks of the three codes, data positions first.
  const H15: seq<Check> := [
    [1,1,1,1,0,1,0,1,1,0,0, 1,0,0,0],
    [0,1,1,1,1,0,1,0,1,1,0, 0,1,0,0],
    [0,0,1,1,1,1,0,1,0,1,1, 0,0,1,0],
    [1,1,1,0,1,0,1,1,0,0,1, 0,0,0,1]]

  const H13: seq<Check> := [
    [1,1,0,1,0,1,1,0,0, 1,0,0,0],
    [1,1,1,0,1,0,1,1,0, 0,1,0,0],
    [1,1,1,1,0,1,0,1,1, 0,0,1,0],
    [1,0,1,0,1,1,0,0,1, 0,0,0,1]]

  // One more position, with a check of its own over it.
  const H16: seq<Check> := [
    H15[0] + [0], H15[1] + [0], H15[2] + [0], H15[3] + [0],
    [1,0,1,0,0,1,1,0,1,1,1, 0,0,0,0,1]]

  lemma Unroll(row: Check, s: seq<Bit>, n: nat)
    requires 5 <= n <= |row| && n <= |s|
    ensures Partial(row, s, n) == Partial(row, s, n - 5)
      ^ (row[n - 5] & s[n - 5]) ^ (row[n - 4] & s[n - 4]) ^ (row[n - 3] & s[n - 3])
      ^ (row[n - 2] & s[n - 2]) ^ (row[n - 1] & s[n - 1])
  {
    assert Partial(row, s, n - 2) == Partial(row, s, n - 3) ^ (row[n - 3] & s[n - 3]);
    assert Partial(row, s, n - 4) == Partial(row, s, n - 5) ^ (row[n - 5] & s[n - 5]);
  }

  lemma Unroll3(row: Check, s: seq<Bit>)
    requires 3 <= |row| && 3 <= |s|
    ensures Partial(row, s, 3) == (row[0] & s[0]) ^ (row[1] & s[1]) ^ (row[2] & s[2])
  {
    assert Partial(row, s, 1) == row[0] & s[0];
  }

  lemma Ham15113Row0(s: seq<Bit>)
    requires |s| == 15 && s[11] == s[0]^s[1]^s[2]^s[3]^s[5]^s[7]^s[8]
    ensures |H15[0]| == 15 && Parity(H15[0], s) == 0
  {
    Unroll(H15[0], s, 15); Unroll(H15[0], s, 10); Unroll(H15[0], s, 5);
  }

  lemma Ham15113Row1(s: seq<Bit>)
    requires |s| == 15 && s[12] == s[1]^s[2]^s[3]^s[4]^s[6]^s[8]^s[9]
    ensures |H15[1]| == 15 && Parity(H15[1], s) == 0
  {
    Unroll(H15[1], s, 15); Unroll(H15[1], s, 10); Unroll(H15[1], s, 5);
  }

  lemma Ham15113Row2(s: seq<Bit>)
    requires |s| == 15 && s[13] == s[2]^s[3]^s[4]^s[5]^s[7]^s[9]^s[10]
    ensures |H15[2]| == 15 && Parity(H15[2], s) == 0
  {
    Unroll(H15[2], s, 15); Unroll(H15[2], s, 10); Unroll(H15[2], s, 5);
  }

  lemma Ham15113Row3(s: seq<Bit>)
    requires |s| == 15 && s[14] == s[0]^s[1]^s[2]^s[4]^s[6]^s[7]^s[10]
    ensures |H15[3]| == 15 && Parity(H15[3], s) == 0
  {
    Unroll(H15[3], s, 15); Unroll(H15[3], s, 10); Unroll(H15[3], s, 5);
  }

  /** A word followed by its parity bits meets every check. */
  lemma Ham15113InCode(d: Bits11)
    ensures InCode(H15, d + Ham15113(d))
  {
    var s := d + Ham15113(d);
    assert |H15| == 4;
    Ham15113Row0(s);
    Ham15113Row1(s);
    Ham15113Row2(s);
    Ham15113Row3(s);
  }

  lemma Ham1393Row0(s: seq<Bit>)
    requires |s| == 13 && s[9] == s[0]^s[1]^s[3]^s[5]^s[6]
    ensures |H13[0]| == 13 && Parity(H13[0], s) == 0
  {
    Unroll(H13[0], s, 13); Unroll(H13[0], s, 8); Unroll3(H13[0], s);
  }

  lemma Ham1393Row1(s: seq<Bit>)
    requires |s| == 13 && s[10] == s[0]^s[1]^s[2]^s[4]^s[6]^s[7]
    ensures |H13[1]| == 13 && Parity(H13[1], s) == 0
  {
    Unroll(H13[1], s, 13); Unroll(H13[1], s, 8); Unroll3(H13[1], s);
  }

  lemma Ham1393Row2(s: seq<Bit>)
    requires |s| == 13 && s[11] == s[0]^s[1]^s[2]^s[3]^s[5]^s[7]^s[8]
    ensures |H13[2]| == 13 && Parity(H13[2], s) == 0
  {
    Unroll(H13[2], s, 13); Unroll(H13[2], s, 8); Unroll3(H13[2], s);
  }

  lemma Ham1393Row3(s: seq<Bit>)
    requires |s| == 13 && s[12] == s[0]^s[2]^s[4]^s[5]^s[8]
    ensures |H13[3]| == 13 && Parity(H13[3], s) == 0
  {
    Unroll(H13[3], s, 13); Unroll(H13[3], s, 8); Unroll3(H13[3], s);
  }

  /** A word followed by its parity bits meets every check. */
  lemma Ham1393InCode(d: Bits9)
    ensures InCode(H13, d + Ham1393(d))
  {
    var s := d + Ham1393(d);
    assert |H13| == 4;
    Ham1393Row0(s);
    Ham1393Row1(s);
    Ham1393Row2(s);
    Ham1393Row3(s);
  }

  lemma H16Last(s: seq<Bit>)
    requires |s| == 16 && s[15] == s[0]^s[2]^s[5]^s[6]^s[8]^s[9]^s[10]
    ensures |H16[4]| == 16 && Parity(H16[4], s) == 0
  {
    Unroll(H16[4], s, 16); Unroll(H16[4], s, 11); Unroll(H16[4], s, 6);
    assert Partial(H16[4], s, 1) == s[0];
  }

  lemma H16Extends(u: seq<Bit>, x: Bit, r: nat)
    requires |u| == 15 && r < 4 && |H15[r]| == 15 && Parity(H15[r], u) == 0
    ensures |H16[r]| == 16 && Parity(H16[r], u + [x]) == 0
  {
    assert H16[r] == H15[r] + [0];
    PartialPrefix(H15[r], H16[r], u, u + [x], 15);
  }

  /** A word followed by its parity bits meets every check. */
  lemma Ham16114InCode(d: Bits11)
    ensures InCode(H16, d + Ham16114(d))
  {
    var u, c, s := d + Ham15113(d), Ham16114(d), d + Ham16114(d);
    Ham15113InCode(d);
    assert s == u + [c[4]];
    assert |H16| == 5;
    forall r | 0 <= r < 5 ensures |H16[r]| == 16 && Parity(H16[r], s) == 0 {
      if r < 4 {
        H16Extends(u, c[4], r);
      } else {
        H16Last(s);
      }
    }
  }

  lemma H15Detects(i: nat)
    requires i < 15
    ensures Checks(H15, 15) && Detects(H15, i)
  {
    assert |H15| == 4;
    assert H15[0][i] == 1 || H15[1][i] == 1 || H15[2][i] == 1 || H15[3][i] == 1;
  }

  lemma H15Parts(i: nat, j: nat)
    requires i < j < 15
    ensures Checks(H15, 15) && Parts(H15, i, j)
  {
    assert |H15| == 4;
    assert H15[0][i] != H15[0][j] || H15[1][i] != H15[1][j] || H15[2][i] != H15[2][j] || H15[3][i] != H15[3][j];
  }

  lemma H15Separates()
    ensures Separates(H15, 15)
  {
    forall i: nat | i < 15 ensures Detects(H15, i) { H15Detects(i); }
    forall i: nat, j: nat | i < j < 15 ensures Parts(H15, i, j) { H15Parts(i, j); }
  }

  lemma H13Detects(i: nat)
    requires i < 13
    ensures Checks(H13, 13) && Detects(H13, i)
  {
    assert |H13| == 4;
    assert H13[0][i] == 1 || H13[1][i] == 1 || H13[2][i] == 1 || H13[3][i] == 1;
  }

  lemma H13Parts(i: nat, j: nat)
    requires i < j < 13
    ensures Checks(H13, 13) && Parts(H13, i, j)
  {
    assert |H13| == 4;
    assert H13[0][i] != H13[0][j] || H13[1][i] != H13[1][j] || H13[2][i] != H13[2][j] || H13[3][i] != H13[3][j];
  }

  lemma H13Separates()
    ensures Separates(H13, 13)
  {
    forall i: nat | i < 13 ensures Detects(H13, i) { H13Detects(i); }
    forall i: nat, j: nat | i < j < 13 ensures Parts(H13, i, j) { H13Parts(i, j); }
  }

  lemma H16Separates()
    ensures Separates(H16, 16)
  {
    H15Separates();
    forall i: nat | i < 16 ensures Detects(H16, i) {
      if i < 15 {
        assert Detects(H15, i);
        var r :| 0 <= r < |H15| && H15[r][i] == 1;
        assert H16[r][i] == 1;
      } else {
        assert H16[4][15] == 1;
      }
    }
    forall i: nat, j: nat | i < j < 16 ensures Parts(H16, i, j) {
      if j < 15 {
        assert Parts(H15, i, j);
        var r :| 0 <= r < |H15| && H15[r][i] != H15[r][j];
        assert H16[r][i] != H16[r][j];
      } else {
        assert Detects(H15, i);
        var r :| 0 <= r < |H15| && H15[r][i] == 1;
        assert H16[r][i] != H16[r][15];
      }
    }
  }

  lemma H16OddColumns()
    ensures OddColumns(H16, 16)
  {
    forall i: nat | i < 16 ensures Checks(H16, 16) && ColumnSum(H16, i, 5) == 1 {
      assert |H16| == 5;
      assert ColumnSum(H16, i, 1) == H16[0][i];
      assert ColumnSum(H16, i, 3) == H16[0][i] ^ H16[1][i] ^ H16[2][i];
    }
  }

  // ---------- The codes are cyclic ----------

  /** x^n modulo x^4 + x + 1, the coefficient of x^3 first. */
  function XPower(n: nat): (p: seq<Bit>)
    ensures |p| == 4
  {
    if n == 0 then [0, 0, 0, 1]
    else
      var p := XPower(n - 1);
      [p[1], p[2], p[3] ^ p[0], p[0]]
  }

  /** The check matrix of the (15,11) code lists the powers of x, so its words are the
      multiples of x^4 + x + 1, first bit highest. */
  lemma {:induction false} H15IsCyclic(c: nat)
    requires c < 15
    ensures |H15| == 4 && [H15[0][c], H15[1][c], H15[2][c], H15[3][c]] == XPower(14 - c)
    decreases 15 - c
  {
    if c < 14 {
      H15IsCyclic(c + 1);
      H15Shifts(c);
    }
  }

  lemma H15Shifts(c: nat)
    requires c < 14
    ensures |H15| == 4 && H15[0][c] == H15[1][c + 1] && H15[1][c] == H15[2][c + 1]
    ensures H15[2][c] == H15[3][c + 1] ^ H15[0][c + 1] && H15[3][c] == H15[0][c + 1]
  {
  }

  /** The (13,9) code is the same, two data bits shorter. */
  lemma H13IsShortened(c: nat)
    requires c < 13
    ensures |H13| == 4 && |H15| == 4
    ensures [H13[0][c], H13[1][c], H13[2][c], H13[3][c]] == [H15[0][c + 2], H15[1][c + 2], H15[2][c + 2], H15[3][c + 2]]
  {
  }

  /** The (16,11) code is the (15,11) code with one more position, which makes the weight of
      its columns odd. */
  lemma H16IsExtended(c: nat)
    requires c < 16
    ensures |H16| == 5 && |H15| == 4
    ensures forall r: nat :: r < 4 ==> H16[r][c] == if c < 15 then H15[r][c] else 0
    ensures H16[4][c] == 1 ^ H16[0][c] ^ H16[1][c] ^ H16[2][c] ^ H16[3][c]
  {
  }
}
