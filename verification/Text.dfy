/** The C library's number formats and scanners, as far as the control channel uses them. */
module Text {
  import opened Sequences

  // ---------- Printing ----------

  function Digit(d: nat): char
    requires d < 10
  {
    ('0' as int + d) as char
  }

  /** `%u`. */
  function Decimal(n: nat): (s: string)
    ensures |s| > 0
  {
    if n < 10 then [Digit(n)] else Decimal(n / 10) + [Digit(n % 10)]
  }

  /** Digits behind enough zeros to fill the width. */
  function Filled(n: nat, width: int): (s: string)
    ensures |s| > 0 && |s| >= width
  {
    var d := Decimal(n);
    Copies('0', if width > |d| then width - |d| else 0) + d
  }

  /** `%0<width>d`: the width includes the sign. */
  function Padded(n: int, width: nat): (s: string)
    ensures |s| > 0 && |s| >= width
  {
    if n < 0 then "-" + Filled(-n, width - 1) else Filled(n, width)
  }

  // ---------- Scanning ----------

  predicate IsDigit(c: char) {
    '0' <= c <= '9'
  }

  predicate AllDigits(s: string) {
    forall i :: 0 <= i < |s| ==> IsDigit(s[i])
  }

  function Number(s: string): nat
    requires AllDigits(s)
  {
    if s == "" then 0 else 10 * Number(s[..|s| - 1]) + (s[|s| - 1] as int - '0' as int)
  }

  predicate IsSpace(c: char) {
    c in " \t\n\r" || c as int == 11 || c as int == 12
  }

  function SkipSpace(s: string): string {
    if s != "" && IsSpace(s[0]) then SkipSpace(s[1..]) else s
  }

  /** Length of the run of digits `s` begins with. */
  function DigitRun(s: string): (n: nat)
    ensures n <= |s| && AllDigits(s[..n])
  {
    if s == "" || !IsDigit(s[0]) then 0
    else
      var n := DigitRun(s[1..]);
      assert s[..n + 1] == [s[0]] + s[1..][..n];
      n + 1
  }

  datatype Scan = NoNumber | Scan(value: int, rest: string)

  /** What `%d`, `atoi` and `strtoul` read: space, a sign, digits. */
  function ScanInt(s: string): Scan {
    var t := SkipSpace(s);
    var negative := t != "" && t[0] == '-';
    var u := if t != "" && (t[0] == '-' || t[0] == '+') then t[1..] else t;
    var n := DigitRun(u);
    if n == 0 then NoNumber
    else
      var v: int := Number(u[..n]);
      Scan(if negative then -v else v, u[n..])
  }

  /** The cast of a long to a 32-bit int. */
  function ToInt32(v: int): int {
    (v + 0x8000_0000) % 0x1_0000_0000 - 0x8000_0000
  }

  function Atoi(s: string): int {
    match ScanInt(s) case NoNumber => 0 case Scan(v, _) => ToInt32(v)
  }

  /** `(uint32_t)strtoul(s, NULL, 10)`, which saturates at 64 bits. */
  function StrToU32(s: string): nat {
    match ScanInt(s)
    case NoNumber => 0
    case Scan(v, _) => if -0x1_0000_0000_0000_0000 < v < 0x1_0000_0000_0000_0000 then v % 0x1_0000_0000 else 0xFFFF_FFFF
  }

  predicate IsInt32(v: int) {
    -0x8000_0000 <= v < 0x8000_0000
  }

  // ---------- Scanning what was printed ----------

  lemma DigitIsDigit(d: nat)
    requires d < 10
    ensures IsDigit(Digit(d)) && Digit(d) as int - '0' as int == d
  {
  }

  lemma NumberSnoc(s: string, d: nat)
    requires AllDigits(s) && d < 10
    ensures AllDigits(s + [Digit(d)]) && Number(s + [Digit(d)]) == 10 * Number(s) + d
  {
    DigitIsDigit(d);
    assert (s + [Digit(d)])[..|s|] == s;
  }

  lemma {:induction false} DecimalReads(n: nat)
    ensures AllDigits(Decimal(n)) && Number(Decimal(n)) == n
  {
    if n < 10 {
      NumberSnoc("", n);
      assert "" + [Digit(n)] == [Digit(n)];
    } else {
      DecimalReads(n / 10);
      NumberSnoc(Decimal(n / 10), n % 10);
    }
  }

  lemma {:induction false} ZerosRead(k: nat, s: string)
    requires AllDigits(s)
    ensures AllDigits(Copies('0', k) + s) && Number(Copies('0', k) + s) == Number(s)
  {
    var z := Copies('0', k) + s;
    if s == "" {
      if k > 0 {
        ZerosRead(k - 1, "");
        assert Copies('0', k)[..k - 1] == Copies('0', k - 1);
        assert Copies('0', k) + "" == Copies('0', k) && Copies('0', k - 1) + "" == Copies('0', k - 1);
      } else {
        assert z == "";
      }
    } else {
      ZerosRead(k, s[..|s| - 1]);
      assert z[..|z| - 1] == Copies('0', k) + s[..|s| - 1];
    }
  }

  lemma FilledReads(n: nat, width: int)
    ensures AllDigits(Filled(n, width)) && Number(Filled(n, width)) == n
  {
    DecimalReads(n);
    var d := Decimal(n);
    ZerosRead(if width > |d| then width - |d| else 0, d);
  }

  lemma {:induction false} RunOfDigits(d: string, rest: string)
    requires AllDigits(d) && (rest == "" || !IsDigit(rest[0]))
    ensures DigitRun(d + rest) == |d|
    decreases |d|
  {
    if d == "" {
      assert d + rest == rest;
    } else {
      assert (d + rest)[1..] == d[1..] + rest;
      RunOfDigits(d[1..], rest);
    }
  }

  lemma ScanDigits(digits: string, rest: string)
    requires AllDigits(digits) && digits != "" && (rest == "" || !IsDigit(rest[0]))
    ensures ScanInt(digits + rest) == Scan(Number(digits), rest)
  {
    hide Number;
    var s := digits + rest;
    assert IsDigit(digits[0]) && s[0] == digits[0];
    assert SkipSpace(s) == s;
    RunOfDigits(digits, rest);
    assert s[..|digits|] == digits && s[|digits|..] == rest;
  }

  lemma ScanNegative(digits: string, rest: string)
    requires AllDigits(digits) && digits != "" && (rest == "" || !IsDigit(rest[0]))
    ensures ScanInt("-" + digits + rest) == Scan(0 - Number(digits), rest)
  {
    hide Number;
    var s, u := "-" + digits + rest, digits + rest;
    assert s[0] == '-' && SkipSpace(s) == s;
    assert s[1..] == u;
    RunOfDigits(digits, rest);
    assert u[..|digits|] == digits && u[|digits|..] == rest;
  }

  /** A printed number is read back, whatever follows, unless it is a digit. */
  lemma ScanPadded(n: int, width: nat, rest: string)
    requires rest == "" || !IsDigit(rest[0])
    ensures ScanInt(Padded(n, width) + rest) == Scan(n, rest)
  {
    hide Filled, ScanInt, IsDigit;
    if n < 0 {
      FilledReads(-n, width - 1);
      ScanNegative(Filled(-n, width - 1), rest);
    } else {
      FilledReads(n, width);
      ScanDigits(Filled(n, width), rest);
    }
  }

  lemma ScanDecimal(n: nat, rest: string)
    requires rest == "" || !IsDigit(rest[0])
    ensures ScanInt(Decimal(n) + rest) == Scan(n, rest)
  {
    assert Padded(n, 0) == Decimal(n);
    ScanPadded(n, 0, rest);
  }

  // ---------- What the scanners read ----------

  function Pow10(k: nat): nat {
    if k == 0 then 1 else 10 * Pow10(k - 1)
  }

  /** A decimal number by the place of its digits. */
  lemma {:induction false} NumberByPlace(s: string, t: string)
    requires AllDigits(s) && AllDigits(t)
    ensures Number(s + t) == Pow10(|t|) * Number(s) + Number(t)
    ensures |t| == 1 ==> Number(t) == t[0] as int - 48
  {
    if t == "" {
      assert s + t == s;
    } else {
      var n := |t| - 1;
      assert (s + t)[..|s + t| - 1] == s + t[..n] && (s + t)[|s + t| - 1] == t[n];
      NumberByPlace(s, t[..n]);
      Regrouped(Pow10(n), Number(s), Number(t[..n]), t[n] as int - 48);
    }
  }

  lemma Regrouped(p: nat, a: nat, b: nat, d: int)
    ensures 10 * (p * a + b) + d == (10 * p) * a + (10 * b + d)
  {
  }

  /** Space is a blank or one of the codes 9 to 13. */
  lemma SpaceCodes(c: char)
    ensures IsSpace(c) <==> c as int == 32 || 9 <= c as int <= 13
  {
  }

  predicate AllSpace(s: string) {
    forall i :: 0 <= i < |s| ==> IsSpace(s[i])
  }

  lemma {:induction false} SpaceSkipped(space: string, s: string)
    requires AllSpace(space) && (s == "" || !IsSpace(s[0]))
    ensures SkipSpace(space + s) == s
  {
    hide IsSpace;
    if space == "" {
      assert space + s == s;
    } else {
      assert (space + s)[1..] == space[1..] + s;
      SpaceSkipped(space[1..], s);
    }
  }

  lemma SignIsNoSpace(sign: string, rest: string)
    requires sign in {"", "+", "-"} && rest != "" && IsDigit(rest[0])
    ensures sign + rest != "" && !IsSpace((sign + rest)[0])
  {
  }

  /** Space, a sign or none, and digits are read up to the first other character. */
  lemma ScanForm(space: string, sign: string, digits: string, rest: string)
    requires AllSpace(space) && sign in {"", "+", "-"} && AllDigits(digits) && digits != ""
    requires rest == "" || !IsDigit(rest[0])
    ensures ScanInt(space + (sign + (digits + rest)))
         == Scan(if sign == "-" then 0 - Number(digits) else Number(digits), rest)
  {
    hide Number, IsSpace;
    var u := digits + rest;
    assert u[0] == digits[0];
    SignIsNoSpace(sign, u);
    SpaceSkipped(space, sign + u);
    RunOfDigits(digits, rest);
    assert u[..|digits|] == digits && u[|digits|..] == rest;
    Unsigned(sign, u);
  }

  lemma Unsigned(sign: string, u: string)
    requires sign in {"", "+", "-"} && u != "" && IsDigit(u[0])
    ensures var t := sign + u;
            (t[0] == '-' <==> sign == "-") && (if t[0] == '-' || t[0] == '+' then t[1..] else t) == u
  {
    var t := sign + u;
    assert sign != "" ==> t[1..] == u;
    assert sign == "" ==> t == u;
  }

  /** Without a digit behind space and sign there is no number. */
  lemma ScanNothing(space: string, sign: string, rest: string)
    requires AllSpace(space) && sign in {"", "+", "-"} && (rest == "" || !IsDigit(rest[0]))
    requires sign == "" ==> rest == "" || (!IsSpace(rest[0]) && rest[0] !in "+-")
    ensures ScanInt(space + (sign + rest)) == NoNumber
  {
    hide IsSpace;
    SignCodes();
    SpaceSkipped(space, sign + rest);
    assert sign != "" ==> (sign + rest)[1..] == rest;
    assert sign == "" ==> sign + rest == rest;
  }

  lemma SignCodes()
    ensures !IsSpace('+') && !IsSpace('-')
  {
  }

  /** What a printed number is read as: congruent modulo 2^32 and in the range of 32 bits,
      signed by `atoi`, unsigned by `strtoul` up to 64 bits, and all ones beyond them. */
  lemma PrintedIsRead(n: int, width: nat)
    ensures IsInt32(Atoi(Padded(n, width))) && (Atoi(Padded(n, width)) - n) % 0x1_0000_0000 == 0
    ensures -0x1_0000_0000_0000_0000 < n < 0x1_0000_0000_0000_0000 ==>
              0 <= StrToU32(Padded(n, width)) < 0x1_0000_0000 && (StrToU32(Padded(n, width)) - n) % 0x1_0000_0000 == 0
    ensures n >= 0x1_0000_0000_0000_0000 || n <= -0x1_0000_0000_0000_0000 ==>
              StrToU32(Padded(n, width)) == 0xFFFF_FFFF
  {
    hide Padded, ScanInt;
    ScanPadded(n, width, "");
    assert Padded(n, width) + "" == Padded(n, width);
    Int32Congruent(n);
    U32Congruent(n);
  }

  lemma Int32Congruent(v: int)
    ensures IsInt32(ToInt32(v)) && (ToInt32(v) - v) % 0x1_0000_0000 == 0
  {
  }

  lemma U32Congruent(v: int)
    ensures (v % 0x1_0000_0000 - v) % 0x1_0000_0000 == 0
  {
  }

  // ---------- Hexadecimal ----------

  function HexDigit(d: nat): char
    requires d < 16
  {
    if d < 10 then ('0' as int + d) as char else ('a' as int + d - 10) as char
  }

  /** `%x`. */
  function Hex(n: nat): (s: string)
    ensures |s| > 0
  {
    if n < 16 then [HexDigit(n)] else Hex(n / 16) + [HexDigit(n % 16)]
  }

  predicate IsHex(c: char) {
    IsDigit(c) || 'a' <= c <= 'f' || 'A' <= c <= 'F'
  }

  predicate AllHex(s: string) {
    forall i :: 0 <= i < |s| ==> IsHex(s[i])
  }

  function HexValue(c: char): (v: nat)
    requires IsHex(c)
  {
    if IsDigit(c) then c as int - '0' as int
    else if c >= 'a' then c as int - 'a' as int + 10
    else c as int - 'A' as int + 10
  }

  function HexNumber(s: string): nat
    requires AllHex(s)
  {
    if s == "" then 0 else 16 * HexNumber(s[..|s| - 1]) + HexValue(s[|s| - 1])
  }

  function HexRun(s: string): (n: nat)
    ensures n <= |s| && AllHex(s[..n])
  {
    if s == "" || !IsHex(s[0]) then 0
    else
      var n := HexRun(s[1..]);
      assert s[..n + 1] == [s[0]] + s[1..][..n];
      n + 1
  }

  /** `(uint32_t)strtoul(s, NULL, 16)`: space, a sign, "0x" before a digit, digits. */
  function StrToHex32(s: string): (v: nat)
    ensures v < 0x1_0000_0000
  {
    var t := SkipSpace(s);
    var negative := t != "" && t[0] == '-';
    var u := if t != "" && (t[0] == '-' || t[0] == '+') then t[1..] else t;
    var w := if |u| > 2 && u[0] == '0' && (u[1] == 'x' || u[1] == 'X') && IsHex(u[2]) then u[2..] else u;
    var v: int := HexNumber(w[..HexRun(w)]);
    if v >= 0x1_0000_0000_0000_0000 then 0xFFFF_FFFF
    else if negative then -v % 0x1_0000_0000
    else v % 0x1_0000_0000
  }

  function Pow16(k: nat): nat {
    if k == 0 then 1 else 16 * Pow16(k - 1)
  }

  /** A hexadecimal number by the place of its digits, in letters of either case. */
  lemma {:induction false} HexByPlace(s: string, t: string)
    requires AllHex(s) && AllHex(t)
    ensures HexNumber(s + t) == Pow16(|t|) * HexNumber(s) + HexNumber(t)
    ensures |t| == 1 ==> HexNumber(t) == t[0] as int - if t[0] <= '9' then 48 else if t[0] <= 'F' then 55 else 87
  {
    hide HexValue;
    if t == "" {
      assert s + t == s;
    } else {
      var n := |t| - 1;
      assert (s + t)[..|s + t| - 1] == s + t[..n] && (s + t)[|s + t| - 1] == t[n];
      HexByPlace(s, t[..n]);
      HexRegrouped(Pow16(n), HexNumber(s), HexNumber(t[..n]), HexValue(t[n]));
      HexCodes(t[n]);
    }
  }

  lemma HexRegrouped(p: nat, a: nat, b: nat, d: int)
    ensures 16 * (p * a + b) + d == (16 * p) * a + (16 * b + d)
  {
  }

  lemma HexCodes(c: char)
    requires IsHex(c)
    ensures HexValue(c) == c as int - if c <= '9' then 48 else if c <= 'F' then 55 else 87
  {
  }

  lemma HexSnoc(s: string, d: nat)
    requires AllHex(s) && d < 16
    ensures AllHex(s + [HexDigit(d)]) && HexNumber(s + [HexDigit(d)]) == 16 * HexNumber(s) + d
  {
    assert (s + [HexDigit(d)])[..|s|] == s;
  }

  lemma {:induction false} HexReads(n: nat)
    ensures AllHex(Hex(n)) && HexNumber(Hex(n)) == n
  {
    if n < 16 {
      HexSnoc("", n);
      assert "" + [HexDigit(n)] == [HexDigit(n)];
    } else {
      HexReads(n / 16);
      HexSnoc(Hex(n / 16), n % 16);
    }
  }

  lemma {:induction false} RunOfHex(s: string)
    requires AllHex(s)
    ensures HexRun(s) == |s|
    decreases |s|
  {
    if s != "" {
      RunOfHex(s[1..]);
    }
  }

  /** A printed 32-bit number is read back. */
  lemma HexRoundTrip(n: nat)
    requires n < 0x1_0000_0000
    ensures StrToHex32(Hex(n)) == n
  {
    hide Hex, HexNumber;
    var s := Hex(n);
    HexReads(n);
    RunOfHex(s);
    assert IsHex(s[0]) && (|s| > 1 ==> IsHex(s[1]));
    assert SkipSpace(s) == s;
    assert s[..|s|] == s;
  }

  // ---------- Searching ----------

  predicate Occurs(s: string, pattern: string, i: nat) {
    i + |pattern| <= |s| && s[i..i + |pattern|] == pattern
  }

  /** `strstr`, as an index: the first occurrence at or after `i`, or -1. */
  function Find(s: string, pattern: string, i: nat): (k: int)
    ensures k == -1 || (k >= i && Occurs(s, pattern, k))
    ensures k >= 0 ==> forall j: nat :: i <= j < k ==> !Occurs(s, pattern, j)
    ensures k == -1 ==> forall j: nat :: i <= j ==> !Occurs(s, pattern, j)
    decreases |s| - i
  {
    if i + |pattern| > |s| then -1
    else if Occurs(s, pattern, i) then i
    else if i < |s| then Find(s, pattern, i + 1)
    else -1
  }

  /** The first occurrence is where it is known to be. */
  lemma FindAt(s: string, pattern: string, k: nat)
    requires Occurs(s, pattern, k) && forall j: nat :: j < k ==> !Occurs(s, pattern, j)
    ensures Find(s, pattern, 0) == k
  {
  }
}
