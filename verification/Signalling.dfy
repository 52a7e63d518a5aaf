/** Call signalling on an established link: B-on and B-off lines. */
module Signalling {
  import opened LineChannel
  import opened Sequences
  import opened Text

  // ---------- Printing ----------

  function BonHead(lid: int, user: int): string {
    "B01" + Padded(lid, 2) + Padded(user, 3)
  }

  function BonMiddle(radio: nat, peer: nat): string {
    " " + Decimal(radio) + " " + Decimal(peer) + " 0.0 radioid=" + Decimal(radio) + " peerid=" + Decimal(peer) + " "
  }

  function BonTail(srcLid: int, tgid: int, callType: char): string {
    Padded(srcLid, 2) + Padded(tgid, 3) + [callType]
  }

  /** A B-on line, without its newline. */
  function BonLine(lid: int, user: int, radio: nat, peer: nat, srcLid: int, tgid: int, callType: char): string {
    BonHead(lid, user) + BonMiddle(radio, peer) + "Bee=B01" + BonTail(srcLid, tgid, callType)
  }

  /** A B-off line, without its newline; `rssi` is already rounded. */
  function BoffLine(lid: int, lost: int, total: int, rssi: int): string {
    "B" + Padded(lid, 2) + "00000  LOSS=" + Padded(lost, 0) + "/" + Padded(total, 0) + " RSSI=" + Padded(rssi, 0)
  }

  // ---------- Parsing ----------

  /** Length of the run of non-space characters `s` begins with, at most `max`. */
  function WordRun(s: string, max: nat): (n: nat)
    ensures n <= |s| && n <= max
  {
    if s == "" || max == 0 || IsSpace(s[0]) then 0 else 1 + WordRun(s[1..], max - 1)
  }

  datatype Token = NoToken | Token(text: string, rest: string)

  /** `%<max>s`. */
  function ScanToken(s: string, max: nat): Token {
    var t := SkipSpace(s);
    var n := WordRun(t, max);
    if n == 0 then NoToken else Token(t[..n], t[n..])
  }

  /** Length without trailing `\r`, `\n` and spaces. */
  function Trimmed(p: string): (n: nat)
    ensures n <= |p|
  {
    if p != "" && p[|p| - 1] in "\r\n " then Trimmed(p[..|p| - 1]) else |p|
  }

  datatype Message =
    | BonMsg(radio: nat, peer: nat, srcLid: int, tgid: int, callType: char)
    | BoffMsg(lost: int, total: int)
    | Malformed
    | Unrecognized

  function ParseBon(line: string): Message {
    var bee := Find(line, "Bee=", 0);
    if bee < 0 then Malformed
    else
      match ScanToken(line, 63)
      case NoToken => Malformed
      case Token(_, rest0) =>
        match ScanToken(rest0, 31)
        case NoToken => Malformed
        case Token(tok1, rest1) =>
          match ScanToken(rest1, 31)
          case NoToken => Malformed
          case Token(tok2, _) =>
            var q := line[bee + 4..];
            if !("B01" <= q) then Malformed else ParseTail(StrToU32(tok1), StrToU32(tok2), q[3..])
  }

  /** Two characters of LID, then the talkgroup, then one character of call type. */
  function ParseTail(radio: nat, peer: nat, p: string): Message {
    var n := Trimmed(p);
    if n < 3 then Malformed
    else
      var tg := p[2..n - 1];
      BonMsg(radio, peer, Atoi(p[..2]), Atoi(if |tg| >= 16 then tg[..15] else tg), p[n - 1])
  }

  function ParseBoff(line: string): Message {
    var k := Find(line, "LOSS=", 0);
    if k < 0 then Malformed
    else
      match ScanInt(line[k + 5..])
      case NoNumber => Malformed
      case Scan(lost, rest) =>
        if rest == "" || rest[0] != '/' then Malformed
        else
          match ScanInt(rest[1..])
          case NoNumber => Malformed
          case Scan(total, _) => BoffMsg(ToInt32(lost), ToInt32(total))
  }

  /** A line callback sees a C string: it ends at the first NUL. */
  function CString(s: string): string {
    if s == "" || s[0] == '\0' then "" else [s[0]] + CString(s[1..])
  }

  function Dispatch(bytes: string): Message {
    var line := CString(bytes);
    if Find(line, "Bee=", 0) >= 0 then ParseBon(line)
    else if Find(line, "LOSS=", 0) >= 0 then ParseBoff(line)
    else Unrecognized
  }

  /** The trimming loop, then the fixed-width fields. */
  method ParseBonTail(radio: nat, peer: nat, p: string) returns (m: Message)
    ensures m == ParseTail(radio, peer, p)
  {
    var n := |p|;
    assert p[..n] == p;
    while n > 0 && (p[n - 1] == '\r' || p[n - 1] == '\n' || p[n - 1] == ' ')
      invariant 0 <= n <= |p| && Trimmed(p[..n]) == Trimmed(p)
    {
      assert p[..n][..n - 1] == p[..n - 1];
      n := n - 1;
    }
    if n < 3 {
      return Malformed;
    }
    var tglen := n - 3;
    if tglen >= 16 {
      tglen := 15;
    }
    assert p[2..n - 1][..tglen] == p[2..2 + tglen];
    m := BonMsg(radio, peer, Atoi(p[..2]), Atoi(p[2..2 + tglen]), p[n - 1]);
  }

  // ---------- Characters and lengths ----------

  /** Nothing in `s` is a letter the search patterns begin with, a space or a control character. */
  predicate Numeric(s: string) {
    forall i :: 0 <= i < |s| ==> IsDigit(s[i]) || s[i] == '-'
  }

  lemma PaddedIsNumeric(n: int, width: nat)
    ensures Numeric(Padded(n, width))
  {
    hide Filled;
    FilledReads(if n < 0 then -n else n, if n < 0 then width - 1 else width);
  }

  lemma DecimalIsNumeric(n: nat)
    ensures Numeric(Decimal(n))
  {
    DecimalReads(n);
  }

  lemma {:induction false} DecimalLength(n: nat, k: nat)
    requires k >= 1 && n < Pow10(k)
    ensures |Decimal(n)| <= k
  {
    if n >= 10 {
      DecimalLength(n / 10, k - 1);
    }
  }

  lemma TenDigits(n: nat)
    requires n < 0x1_0000_0000
    ensures |Decimal(n)| <= 10
  {
    assert Pow10(5) == 100000;
    assert Pow10(10) == 10000000000;
    DecimalLength(n, 10);
  }

  lemma PaddedLength(n: int, width: nat)
    requires IsInt32(n) && width <= 11
    ensures |Padded(n, width)| <= 11
  {
    hide Decimal;
    TenDigits(if n < 0 then -n else n);
  }

  lemma TwoCharacters(n: int)
    ensures |Padded(n, 2)| == 2 <==> -9 <= n <= 99
  {
    var m: nat := if n < 0 then -n else n;
    assert Pow10(1) == 10 && Pow10(2) == 100;
    if m <= 9 { DecimalLength(m, 1); }
    if m <= 99 { DecimalLength(m, 2); }
    DecimalAtLeast(m);
  }

  lemma DecimalAtLeast(n: nat)
    ensures n >= 10 ==> |Decimal(n)| >= 2
    ensures n >= 100 ==> |Decimal(n)| >= 3
  {
    if n >= 100 {
      assert n / 10 >= 10;
      assert |Decimal(n / 10)| >= 2 by { assert |Decimal(n / 10 / 10)| >= 1; }
    }
  }

  lemma {:induction false} NumberBelow(s: string, k: nat)
    requires AllDigits(s) && |s| <= k
    ensures Number(s) < Pow10(k)
  {
    if k == 0 {
    } else if s == "" {
      NumberBelow(s, k - 1);
    } else {
      NumberBelow(s[..|s| - 1], k - 1);
    }
  }

  /** Two characters cannot denote a number outside -9 to 99. */
  lemma TwoCharacterValue(s: string)
    requires |s| == 2
    ensures -9 <= Atoi(s) <= 99
  {
    assert Pow10(1) == 10 && Pow10(2) == 100;
    var t := SkipSpace(s);
    SkipShortens(s);
    var signed := t != "" && (t[0] == '-' || t[0] == '+');
    var u := if signed then t[1..] else t;
    NumberBelow(u[..DigitRun(u)], if signed then 1 else 2);
  }

  lemma SkipShortens(s: string)
    ensures |SkipSpace(s)| <= |s|
  {
  }

  // ---------- A B-on line is read back ----------

  /** Fields as the bridge prints them: 32-bit ids, numbers and LIDs. */
  predicate BonFields(lid: int, user: int, radio: nat, peer: nat, srcLid: int, tgid: int, callType: char) {
    && IsInt32(lid) && IsInt32(user) && radio < 0x1_0000_0000 && peer < 0x1_0000_0000
    && IsInt32(srcLid) && IsInt32(tgid) && callType !in "\r\n \0"
  }

  predicate Avoids(s: string, c: char) {
    forall i :: 0 <= i < |s| ==> s[i] != c
  }

  lemma NumericAvoids(s: string, c: char)
    requires Numeric(s) && !IsDigit(c) && c != '-'
    ensures Avoids(s, c)
  {
  }

  lemma ConcatAvoids(s: string, t: string, c: char)
    requires Avoids(s, c) && Avoids(t, c)
    ensures Avoids(s + t, c)
  {
  }

  lemma HeadAvoids(lid: int, user: int, c: char)
    requires !IsDigit(c) && c != '-'
    ensures Avoids("01" + Padded(lid, 2) + Padded(user, 3), c)
  {
    hide Padded;
    PaddedIsNumeric(lid, 2);
    PaddedIsNumeric(user, 3);
    NumericAvoids(Padded(lid, 2), c);
    NumericAvoids(Padded(user, 3), c);
    ConcatAvoids("01", Padded(lid, 2), c);
    ConcatAvoids("01" + Padded(lid, 2), Padded(user, 3), c);
  }

  lemma MiddleAvoids(radio: nat, peer: nat, c: char)
    requires c == 'B' || c == '\0'
    ensures Avoids(BonMiddle(radio, peer), c)
  {
    hide Decimal;
    var r, p := Decimal(radio), Decimal(peer);
    DecimalIsNumeric(radio);
    DecimalIsNumeric(peer);
    NumericAvoids(r, c);
    NumericAvoids(p, c);
    ConcatAvoids(" ", r, c);
    ConcatAvoids(" " + r, " ", c);
    ConcatAvoids(" " + r + " ", p, c);
    ConcatAvoids(" " + r + " " + p, " 0.0 radioid=", c);
    ConcatAvoids(" " + r + " " + p + " 0.0 radioid=", r, c);
    ConcatAvoids(" " + r + " " + p + " 0.0 radioid=" + r, " peerid=", c);
    ConcatAvoids(" " + r + " " + p + " 0.0 radioid=" + r + " peerid=", p, c);
    ConcatAvoids(" " + r + " " + p + " 0.0 radioid=" + r + " peerid=" + p, " ", c);
  }

  lemma OccursBegins(s: string, pattern: string, j: nat)
    requires Occurs(s, pattern, j) && |pattern| >= 2
    ensures j + 1 < |s| && s[j] == pattern[0] && s[j + 1] == pattern[1]
  {
    var w := s[j..j + |pattern|];
    assert w[0] == s[j] && w[1] == s[j + 1];
  }

  lemma NotHere(s: string, pattern: string, j: nat)
    requires |pattern| >= 2 && (j + 1 < |s| ==> s[j] != pattern[0] || s[j + 1] != pattern[1])
    ensures !Occurs(s, pattern, j)
  {
    if Occurs(s, pattern, j) {
      OccursBegins(s, pattern, j);
    }
  }

  /** A pattern is first found where it stands when, before it, its first character
      occurs at most at index 0 and is followed by something else than its second. */
  lemma FindBehind(pre: string, pattern: string, post: string)
    requires |pre| >= 2 && |pattern| >= 2 && Avoids(pre[1..], pattern[0]) && pre[1] != pattern[1]
    ensures Find(pre + pattern + post, pattern, 0) == |pre|
  {
    var s := pre + pattern + post;
    assert s[|pre|..|pre| + |pattern|] == pattern;
    forall j: nat | j < |pre| ensures !Occurs(s, pattern, j) {
      assert j > 0 ==> pre[1..][j - 1] == s[j];
      NotHere(s, pattern, j);
    }
    FindAt(s, pattern, |pre|);
  }

  lemma BeeFound(lid: int, user: int, radio: nat, peer: nat, tail: string)
    ensures var pre := BonHead(lid, user) + BonMiddle(radio, peer);
            Find(pre + "Bee=" + tail, "Bee=", 0) == |pre|
  {
    hide Padded, BonMiddle;
    var pre := BonHead(lid, user) + BonMiddle(radio, peer);
    HeadAvoids(lid, user, 'B');
    MiddleAvoids(radio, peer, 'B');
    var rest := "01" + Padded(lid, 2) + Padded(user, 3);
    assert pre[1..] == rest + BonMiddle(radio, peer);
    ConcatAvoids(rest, BonMiddle(radio, peer), 'B');
    assert pre[1] == rest[0] == '0';
    FindBehind(pre, "Bee=", tail);
  }

  lemma {:induction false} WordRunAll(text: string, rest: string, max: nat)
    requires (forall i :: 0 <= i < |text| ==> !IsSpace(text[i])) && |text| <= max && (rest == "" || IsSpace(rest[0]))
    ensures WordRun(text + rest, max) == |text|
    decreases |text|
  {
    if text == "" {
      assert text + rest == rest;
    } else {
      assert (text + rest)[1..] == text[1..] + rest;
      WordRunAll(text[1..], rest, max - 1);
    }
  }

  lemma TokenRead(text: string, rest: string, max: nat)
    requires text != "" && Avoids(text, ' ') && (forall i :: 0 <= i < |text| ==> !IsSpace(text[i])) && |text| <= max
    requires rest == "" || IsSpace(rest[0])
    ensures ScanToken(text + rest, max) == Token(text, rest)
    ensures ScanToken(" " + text + rest, max) == Token(text, rest)
  {
    hide IsSpace;
    var s, t := text + rest, " " + text + rest;
    SkipNone(text, rest);
    WordRunAll(text, rest, max);
    assert s[..|text|] == text && s[|text|..] == rest;
  }

  lemma SkipNone(text: string, rest: string)
    requires text != "" && !IsSpace(text[0])
    ensures SkipSpace(text + rest) == text + rest && SkipSpace(" " + text + rest) == text + rest
  {
    assert (text + rest)[0] == text[0];
    assert (" " + text + rest)[1..] == text + rest;
  }

  lemma NumericNoSpace(s: string)
    requires Numeric(s)
    ensures forall i :: 0 <= i < |s| ==> !IsSpace(s[i])
    ensures Avoids(s, ' ')
  {
  }

  lemma U32Read(n: nat)
    requires n < 0x1_0000_0000
    ensures StrToU32(Decimal(n)) == n
  {
    hide Decimal;
    ScanDecimal(n, "");
    assert Decimal(n) + "" == Decimal(n);
  }

  /** The three words of a B-on line. */
  lemma WordsRead(lid: int, user: int, radio: nat, peer: nat, more: string)
    requires IsInt32(lid) && IsInt32(user) && radio < 0x1_0000_0000 && peer < 0x1_0000_0000
    ensures var w0, w1, w2 := BonHead(lid, user), Decimal(radio), Decimal(peer);
            var rest1 := " " + w2 + (" " + more);
            && ScanToken(w0 + (" " + w1 + rest1), 63) == Token(w0, " " + w1 + rest1)
            && ScanToken(" " + w1 + rest1, 31) == Token(w1, rest1)
            && ScanToken(rest1, 31) == Token(w2, " " + more)
  {
    hide Padded, Decimal, ScanToken, IsSpace;
    var w0, w1, w2 := BonHead(lid, user), Decimal(radio), Decimal(peer);
    SpaceIsSpace();
    HeadIsWord(lid, user);
    DecimalIsNumeric(radio);
    DecimalIsNumeric(peer);
    NumericNoSpace(w1);
    NumericNoSpace(w2);
    TenDigits(radio);
    TenDigits(peer);
    TokenRead(w0, " " + w1 + (" " + w2 + (" " + more)), 63);
    TokenRead(w1, " " + w2 + (" " + more), 31);
    TokenRead(w2, " " + more, 31);
  }

  lemma SpaceIsSpace()
    ensures IsSpace(' ')
  {
  }

  lemma HeadIsWord(lid: int, user: int)
    requires IsInt32(lid) && IsInt32(user)
    ensures var w := BonHead(lid, user); |w| <= 63 && Avoids(w, ' ') && forall i :: 0 <= i < |w| ==> !IsSpace(w[i])
  {
    hide Padded;
    PaddedIsNumeric(lid, 2);
    PaddedIsNumeric(user, 3);
    PaddedLength(lid, 2);
    PaddedLength(user, 3);
  }

  lemma TailRead(radio: nat, peer: nat, srcLid: int, tgid: int, callType: char)
    requires IsInt32(srcLid) && IsInt32(tgid) && callType !in "\r\n \0"
    ensures var m := ParseTail(radio, peer, BonTail(srcLid, tgid, callType));
            m.BonMsg? && m.radio == radio && m.peer == peer && m.callType == callType
            && (m.srcLid == srcLid <==> -9 <= srcLid <= 99) && (-9 <= srcLid <= 99 ==> m.tgid == tgid)
  {
    hide Padded, Atoi;
    var p := BonTail(srcLid, tgid, callType);
    assert p[|p| - 1] == callType && Trimmed(p) == |p|;
    TwoCharacterValue(p[..2]);
    TwoCharacters(srcLid);
    if -9 <= srcLid <= 99 {
      assert p[..2] == Padded(srcLid, 2);
      AtoiPadded(srcLid, 2);
      PaddedLength(tgid, 3);
      assert p[2..|p| - 1] == Padded(tgid, 3);
      AtoiPadded(tgid, 3);
    }
  }

  lemma AtoiPadded(n: int, width: nat)
    requires IsInt32(n)
    ensures Atoi(Padded(n, width)) == n
  {
    hide Padded;
    ScanPadded(n, width, "");
    assert Padded(n, width) + "" == Padded(n, width);
  }

  /** A B-on line, cut where the words are. */
  lemma BonWords(lid: int, user: int, radio: nat, peer: nat, tail: string)
    ensures var w1, w2 := Decimal(radio), Decimal(peer);
            var more := "0.0 radioid=" + w1 + " peerid=" + w2 + " Bee=B01" + tail;
            BonHead(lid, user) + BonMiddle(radio, peer) + "Bee=B01" + tail
            == BonHead(lid, user) + (" " + w1 + (" " + w2 + (" " + more)))
  {
    hide Decimal, BonHead;
  }

  /** The line behind its "Bee=". */
  lemma BonBehindBee(pre: string, tail: string)
    ensures var line := pre + "Bee=B01" + tail;
            line == pre + "Bee=" + ("B01" + tail) && line[|pre| + 4..] == "B01" + tail && ("B01" + tail)[3..] == tail
  {
  }

  /** A B-on line gives back radio, peer and call type; the LID exactly when it is from
      -9 to 99, for only two characters of it are read, and then the talkgroup too. */
  lemma BonRoundTrip(lid: int, user: int, radio: nat, peer: nat, srcLid: int, tgid: int, callType: char)
    requires BonFields(lid, user, radio, peer, srcLid, tgid, callType)
    ensures var m := ParseBon(BonLine(lid, user, radio, peer, srcLid, tgid, callType));
            m.BonMsg? && m.radio == radio && m.peer == peer && m.callType == callType
            && (m.srcLid == srcLid <==> -9 <= srcLid <= 99) && (-9 <= srcLid <= 99 ==> m.tgid == tgid)
  {
    hide Padded, Decimal, ScanToken, BonTail, ParseTail, Find, StrToU32, BonHead, BonMiddle;
    var tail := BonTail(srcLid, tgid, callType);
    var w1, w2 := Decimal(radio), Decimal(peer);
    var pre := BonHead(lid, user) + BonMiddle(radio, peer);
    BonBehindBee(pre, tail);
    BeeFound(lid, user, radio, peer, "B01" + tail);
    BonWords(lid, user, radio, peer, tail);
    WordsRead(lid, user, radio, peer, "0.0 radioid=" + w1 + " peerid=" + w2 + " Bee=B01" + tail);
    U32Read(radio);
    U32Read(peer);
    TailRead(radio, peer, srcLid, tgid, callType);
  }

  // ---------- A B-off line is read back ----------

  lemma BoffPrefixAvoids(lid: int, c: char)
    requires c == 'B' || c == 'L' || c == '\0'
    ensures Avoids(Padded(lid, 2) + "00000  ", c)
  {
    hide Padded;
    PaddedIsNumeric(lid, 2);
  }

  lemma LossFound(lid: int, rest: string)
    ensures var pre := "B" + Padded(lid, 2) + "00000  "; Find(pre + "LOSS=" + rest, "LOSS=", 0) == |pre|
  {
    hide Padded;
    var pre := "B" + Padded(lid, 2) + "00000  ";
    BoffPrefixAvoids(lid, 'L');
    assert pre[1..] == Padded(lid, 2) + "00000  ";
    PaddedIsNumeric(lid, 2);
    assert pre[1] == Padded(lid, 2)[0];
    FindBehind(pre, "LOSS=", rest);
  }

  lemma BoffRoundTrip(lid: int, lost: int, total: int, rssi: int)
    requires IsInt32(lost) && IsInt32(total)
    ensures ParseBoff(BoffLine(lid, lost, total, rssi)) == BoffMsg(lost, total)
  {
    hide Padded, ScanInt, Find;
    var line := BoffLine(lid, lost, total, rssi);
    var pre := "B" + Padded(lid, 2) + "00000  ";
    var end := " RSSI=" + Padded(rssi, 0);
    var second := Padded(total, 0) + end;
    var first := Padded(lost, 0) + ("/" + second);
    assert line == pre + "LOSS=" + first;
    LossFound(lid, first);
    assert line[|pre| + 5..] == first;
    ScanPadded(lost, 0, "/" + second);
    assert ("/" + second)[1..] == second;
    ScanPadded(total, 0, end);
  }

  // ---------- Lines of others ----------

  predicate IsWord(s: string) {
    s != "" && Avoids(s, ' ') && forall i :: 0 <= i < |s| ==> !IsSpace(s[i])
  }

  /** Any line of three words, the first of at most 63 characters and the others of at most
      31, with "Bee=B01" somewhere behind them is a B-on: the words are radio and peer,
      and what follows tells the rest. */
  lemma AnyBon(w0: string, w1: string, w2: string, more: string, tail: string)
    requires IsWord(w0) && |w0| <= 63 && IsWord(w1) && |w1| <= 31 && IsWord(w2) && |w2| <= 31
    requires var pre := w0 + (" " + w1 + (" " + w2 + (" " + more)));
             forall j: nat :: j < |pre| ==> !Occurs(pre + "Bee=B01" + tail, "Bee=", j)
    ensures var line := w0 + (" " + w1 + (" " + w2 + (" " + more))) + "Bee=B01" + tail;
            ParseBon(line) == ParseTail(StrToU32(w1), StrToU32(w2), tail)
  {
    hide ScanToken, IsSpace, StrToU32, ParseTail, Occurs, IsWord, Find;
    var rest := " " + (more + "Bee=B01" + tail);
    var pre := w0 + (" " + w1 + (" " + w2 + (" " + more)));
    var line := pre + "Bee=B01" + tail;
    BonBehindBee(pre, tail);
    BeeHere(pre, "B01" + tail);
    FindAt(line, "Bee=", |pre|);
    WordRead(w0, " " + w1 + (" " + w2 + rest), 63);
    WordRead(w1, " " + w2 + rest, 31);
    WordRead(w2, rest, 31);
    assert line == w0 + (" " + w1 + (" " + w2 + rest));
  }

  lemma BeeHere(pre: string, rest: string)
    ensures Occurs(pre + "Bee=" + rest, "Bee=", |pre|)
  {
  }

  lemma WordRead(w: string, rest: string, max: nat)
    requires IsWord(w) && |w| <= max && rest != "" && rest[0] == ' '
    ensures ScanToken(w + rest, max) == Token(w, rest) && ScanToken(" " + w + rest, max) == Token(w, rest)
  {
    hide IsSpace;
    SpaceIsSpace();
    TokenRead(w, rest, max);
  }

  // ---------- What else the lines tell ----------

  /** Blanks and line ends behind the call type do not matter. */
  lemma TrailingIgnored(radio: nat, peer: nat, p: string, end: string)
    requires forall i :: 0 <= i < |end| ==> end[i] == ' ' || end[i] == '\r' || end[i] == '\n'
    ensures ParseTail(radio, peer, p + end) == ParseTail(radio, peer, p)
  {
    hide Atoi;
    TrimmedBefore(p, end);
    var n, q := Trimmed(p), p + end;
    if n >= 3 {
      assert q[2..n - 1] == p[2..n - 1] && q[..2] == p[..2];
    }
  }

  lemma {:induction false} TrimmedBefore(p: string, end: string)
    requires forall i :: 0 <= i < |end| ==> end[i] == ' ' || end[i] == '\r' || end[i] == '\n'
    ensures Trimmed(p + end) == Trimmed(p)
  {
    if end == "" {
      assert p + end == p;
    } else {
      assert (p + end)[..|p + end| - 1] == p + end[..|end| - 1];
      TrimmedBefore(p, end[..|end| - 1]);
    }
  }

  /** Characters `i` up to `j` are digits that denote `n`. */
  predicate Denotes(s: string, i: nat, j: nat, n: nat) {
    i <= j <= |s| && AllDigits(s[i..j]) && Number(s[i..j]) == n
  }

  /** The first occurrence of the key is followed by the number. */
  predicate Labelled(line: string, key: string, n: int) {
    var k := Find(line, key, 0);
    k >= 0 && var scan := ScanInt(line[k + |key|..]); scan.Scan? && scan.value == n
  }

  lemma PaddedDigits(n: nat, width: nat)
    requires width >= 1 && n < Pow10(width)
    ensures |Padded(n, width)| == width && AllDigits(Padded(n, width)) && Number(Padded(n, width)) == n
  {
    hide Decimal, Number;
    DecimalLength(n, width);
    FilledReads(n, width);
  }

  lemma DenotesPart(pre: string, digits: string, post: string, n: nat)
    requires AllDigits(digits) && Number(digits) == n
    ensures Denotes(pre + digits + post, |pre|, |pre| + |digits|, n)
  {
    hide Number;
    assert (pre + digits + post)[|pre|..|pre| + |digits|] == digits;
  }

  /** A B-on line begins with "B01", two digits of LID and three of the user. */
  lemma BonHeadFields(lid: nat, user: nat, radio: nat, peer: nat, srcLid: int, tgid: int, callType: char)
    requires lid < 100 && user < 1000
    ensures var line := BonLine(lid, user, radio, peer, srcLid, tgid, callType);
            "B01" <= line && Denotes(line, 3, 5, lid) && Denotes(line, 5, 8, user) && line[8] == ' '
  {
    hide Padded, Number, BonMiddle;
    assert Pow10(2) == 100 && Pow10(3) == 1000;
    PaddedDigits(lid, 2);
    PaddedDigits(user, 3);
    var a, b, c := Padded(lid, 2), Padded(user, 3), BonMiddle(radio, peer);
    var rest := "Bee=B01" + BonTail(srcLid, tgid, callType);
    var line := BonLine(lid, user, radio, peer, srcLid, tgid, callType);
    assert c[0] == ' ' by { MiddleBegins(radio, peer); }
    DenotesPart("B01", a, b + c + rest, lid);
    DenotesPart("B01" + a, b, c + rest, user);
    assert line == "B01" + a + (b + c + rest) && line == "B01" + a + b + (c + rest);
  }

  lemma MiddleBegins(radio: nat, peer: nat)
    ensures BonMiddle(radio, peer) != "" && BonMiddle(radio, peer)[0] == ' '
  {
    hide Decimal;
  }

  /** It ends with two digits of LID, three of the talkgroup and the call type. */
  lemma BonTailFields(srcLid: nat, tgid: nat, callType: char)
    requires srcLid < 100 && tgid < 1000
    ensures var tail := BonTail(srcLid, tgid, callType);
            |tail| == 6 && Denotes(tail, 0, 2, srcLid) && Denotes(tail, 2, 5, tgid) && tail[5] == callType
  {
    hide Padded, Number;
    assert Pow10(2) == 100 && Pow10(3) == 1000;
    PaddedDigits(srcLid, 2);
    PaddedDigits(tgid, 3);
    var a, b, tail := Padded(srcLid, 2), Padded(tgid, 3), BonTail(srcLid, tgid, callType);
    DenotesPart("", a, b + [callType], srcLid);
    DenotesPart(a, b, [callType], tgid);
    assert "" + a + (b + [callType]) == tail;
  }

  lemma LabelFound(pre: string, key: string, n: int, post: string, width: nat)
    requires |pre| >= 2 && |key| >= 2 && Avoids(pre[1..], key[0]) && pre[1] != key[1]
    requires post == "" || !IsDigit(post[0])
    ensures Labelled(pre + key + (Padded(n, width) + post), key, n)
  {
    hide Padded, ScanInt, IsDigit;
    var rest := Padded(n, width) + post;
    FindBehind(pre, key, rest);
    ScanPadded(n, width, post);
    assert (pre + key + rest)[|pre| + |key|..] == rest;
  }

  /** A B-on line in three parts: up to its labels, the labels, and the rest. */
  lemma BonParts(lid: int, user: int, radio: nat, peer: nat, srcLid: int, tgid: int, callType: char)
    ensures var r, p := Decimal(radio), Decimal(peer);
            BonLine(lid, user, radio, peer, srcLid, tgid, callType)
            == BonWordsAt(lid, user, r, p) + "radioid=" + r + " " + "peerid=" + p + " "
               + ("Bee=B01" + BonTail(srcLid, tgid, callType))
  {
    hide BonHead, BonTail, Decimal;
  }

  function BonWordsAt(lid: int, user: int, radio: string, peer: string): string {
    BonHead(lid, user) + " " + radio + " " + peer + " 0.0 "
  }

  lemma WordsAvoid(lid: int, user: int, radio: nat, peer: nat, c: char)
    requires c == 'r' || c == 'p'
    ensures var s := BonWordsAt(lid, user, Decimal(radio), Decimal(peer));
            |s| >= 2 && s[1] == '0' && Avoids(s[1..], c)
  {
    hide Padded, Decimal;
    DecimalIsNumeric(radio);
    DecimalIsNumeric(peer);
    HeadAvoids(lid, user, c);
    var head, r, p := "01" + Padded(lid, 2) + Padded(user, 3), Decimal(radio), Decimal(peer);
    assert BonWordsAt(lid, user, r, p)[1..] == head + (" " + r + " " + p + " 0.0 ");
  }

  /** In its middle a B-on line names the radio and the peer a second time. */
  lemma BonLabels(lid: int, user: int, radio: nat, peer: nat, srcLid: int, tgid: int, callType: char)
    ensures Labelled(BonLine(lid, user, radio, peer, srcLid, tgid, callType), "radioid=", radio)
    ensures Labelled(BonLine(lid, user, radio, peer, srcLid, tgid, callType), "peerid=", peer)
  {
    hide Padded, Decimal, Labelled, BonLine, BonWordsAt, BonTail, Avoids;
    var r, p, line := Decimal(radio), Decimal(peer), BonLine(lid, user, radio, peer, srcLid, tgid, callType);
    var words, behind := BonWordsAt(lid, user, r, p), "Bee=B01" + BonTail(srcLid, tgid, callType);
    NoPadding(radio);
    NoPadding(peer);
    BonParts(lid, user, radio, peer, srcLid, tgid, callType);
    WordsAvoid(lid, user, radio, peer, 'r');
    LabelFound(words, "radioid=", radio, " peerid=" + p + " " + behind, 0);
    assert line == words + "radioid=" + (r + (" peerid=" + p + " " + behind));
    var pre := words + "radioid=" + r + " ";
    LabelPasses(words, radio, peer, lid, user);
    LabelFound(pre, "peerid=", peer, " " + behind, 0);
    assert line == pre + "peerid=" + (p + (" " + behind));
  }

  /** The letter p does not occur in the first label either. */
  lemma LabelPasses(words: string, radio: nat, peer: nat, lid: int, user: int)
    requires words == BonWordsAt(lid, user, Decimal(radio), Decimal(peer))
    ensures var pre := words + "radioid=" + Decimal(radio) + " ";
            |pre| >= 2 && pre[1] == '0' && Avoids(pre[1..], 'p')
  {
    hide Decimal, BonWordsAt;
    WordsAvoid(lid, user, radio, peer, 'p');
    DecimalIsNumeric(radio);
    var r := Decimal(radio);
    assert (words + "radioid=" + r + " ")[1..] == words[1..] + ("radioid=" + r + " ");
  }

  lemma NoPadding(n: nat)
    ensures Padded(n, 0) == Decimal(n)
  {
  }

  /** A B-off line begins with its LID, two digits and five zeros, and ends with the RSSI. */
  lemma BoffFields(lid: nat, lost: int, total: int, rssi: int)
    requires lid < 100
    ensures var line := BoffLine(lid, lost, total, rssi);
            "B" <= line && Denotes(line, 1, 3, lid) && |line| >= 8 && line[3..8] == "00000"
              && Labelled(line, "RSSI=", rssi)
  {
    hide Padded, Number, Labelled, Denotes;
    assert Pow10(2) == 100;
    PaddedDigits(lid, 2);
    PaddedIsNumeric(lost, 0);
    PaddedIsNumeric(total, 0);
    var a, m := Padded(lid, 2), "00000  LOSS=" + Padded(lost, 0) + "/" + Padded(total, 0) + " ";
    var end, line := Padded(rssi, 0), BoffLine(lid, lost, total, rssi);
    var pre := "B" + a + m;
    DenotesPart("B", a, m + "RSSI=" + end, lid);
    assert pre[1..] == a + m && pre[1] == a[0];
    LabelFound(pre, "RSSI=", rssi, "", 0);
    assert line == pre + "RSSI=" + (end + "") && line == "B" + a + (m + "RSSI=" + end);
  }

  // ---------- Dispatch ----------

  lemma {:induction false} NoNul(s: string)
    requires Avoids(s, '\0')
    ensures CString(s) == s
  {
    if s != "" {
      assert Avoids(s[1..], '\0');
      NoNul(s[1..]);
    }
  }

  datatype Signal =
    | Bon(lid: int, user: int, radio: nat, peer: nat, srcLid: int, tgid: int, callType: char)
    | Boff(lid: int, lost: int, total: int, rssi: int)

  function Print(s: Signal): string {
    match s
    case Bon(lid, user, radio, peer, srcLid, tgid, callType) => BonLine(lid, user, radio, peer, srcLid, tgid, callType)
    case Boff(lid, lost, total, rssi) => BoffLine(lid, lost, total, rssi)
  }

  /** What a signal means to its receiver. */
  function Meaning(s: Signal): Message {
    match s
    case Bon(_, _, radio, peer, srcLid, tgid, callType) => BonMsg(radio, peer, srcLid, tgid, callType)
    case Boff(_, lost, total, _) => BoffMsg(lost, total)
  }

  predicate Sendable(s: Signal) {
    match s
    case Bon(lid, user, radio, peer, srcLid, tgid, callType) =>
      BonFields(lid, user, radio, peer, srcLid, tgid, callType)
    case Boff(lid, lost, total, rssi) => IsInt32(lid) && IsInt32(lost) && IsInt32(total) && IsInt32(rssi)
  }

  lemma BonHasNoNul(lid: int, user: int, radio: nat, peer: nat, srcLid: int, tgid: int, callType: char)
    requires callType != '\0'
    ensures Avoids(BonLine(lid, user, radio, peer, srcLid, tgid, callType), '\0')
  {
    hide Padded, BonMiddle;
    HeadAvoids(lid, user, '\0');
    MiddleAvoids(radio, peer, '\0');
    PaddedIsNumeric(srcLid, 2);
    PaddedIsNumeric(tgid, 3);
    var head := "01" + Padded(lid, 2) + Padded(user, 3);
    assert BonHead(lid, user) == "B" + head;
  }

  lemma BoffHasNo(lid: int, lost: int, total: int, rssi: int, c: char)
    requires c == 'B' || c == '\0'
    ensures Avoids(BoffLine(lid, lost, total, rssi)[1..], c)
  {
    hide Padded;
    PaddedIsNumeric(lid, 2);
    PaddedIsNumeric(lost, 0);
    PaddedIsNumeric(total, 0);
    PaddedIsNumeric(rssi, 0);
  }

  lemma NoBeeInBoff(lid: int, lost: int, total: int, rssi: int)
    ensures Find(BoffLine(lid, lost, total, rssi), "Bee=", 0) == -1
  {
    hide Padded;
    var line := BoffLine(lid, lost, total, rssi);
    BoffHasNo(lid, lost, total, rssi, 'B');
    PaddedIsNumeric(lid, 2);
    assert line[1] == Padded(lid, 2)[0];
    forall j: nat ensures !Occurs(line, "Bee=", j) {
      assert 0 < j < |line| ==> line[1..][j - 1] == line[j];
      NotHere(line, "Bee=", j);
    }
  }

  /** One line: radio, peer and counts always arrive; the whole meaning of a B-on
      arrives exactly when its LID is from -9 to 99. */
  lemma DispatchPrinted(s: Signal)
    requires Sendable(s)
    ensures Dispatch(Print(s)) == Meaning(s) <==> (s.Bon? ==> -9 <= s.srcLid <= 99)
  {
    hide BonLine, BoffLine, ParseBon, ParseBoff, Avoids;
    match s
    case Bon(lid, user, radio, peer, srcLid, tgid, callType) =>
      BonHasNoNul(lid, user, radio, peer, srcLid, tgid, callType);
      NoNul(BonLine(lid, user, radio, peer, srcLid, tgid, callType));
      BonHasBee(lid, user, radio, peer, srcLid, tgid, callType);
      BonRoundTrip(lid, user, radio, peer, srcLid, tgid, callType);
    case Boff(lid, lost, total, rssi) =>
      BoffNoNul(lid, lost, total, rssi);
      NoNul(BoffLine(lid, lost, total, rssi));
      NoBeeInBoff(lid, lost, total, rssi);
      BoffHasLoss(lid, lost, total, rssi);
      BoffRoundTrip(lid, lost, total, rssi);
  }

  lemma BoffNoNul(lid: int, lost: int, total: int, rssi: int)
    ensures Avoids(BoffLine(lid, lost, total, rssi), '\0')
  {
    hide Padded;
    var line := BoffLine(lid, lost, total, rssi);
    BoffHasNo(lid, lost, total, rssi, '\0');
    forall i | 0 <= i < |line| ensures line[i] != '\0' {
      if i > 0 {
        assert line[1..][i - 1] == line[i];
      }
    }
  }

  lemma BonHasBee(lid: int, user: int, radio: nat, peer: nat, srcLid: int, tgid: int, callType: char)
    ensures Find(BonLine(lid, user, radio, peer, srcLid, tgid, callType), "Bee=", 0) >= 0
  {
    hide Padded, BonMiddle, BonHead, BonTail, Find;
    var tail := BonTail(srcLid, tgid, callType);
    BeeFound(lid, user, radio, peer, "B01" + tail);
    assert BonLine(lid, user, radio, peer, srcLid, tgid, callType)
        == BonHead(lid, user) + BonMiddle(radio, peer) + "Bee=" + ("B01" + tail);
  }

  lemma BoffHasLoss(lid: int, lost: int, total: int, rssi: int)
    ensures Find(BoffLine(lid, lost, total, rssi), "LOSS=", 0) >= 0
  {
    hide Padded, Find;
    var rest := Padded(lost, 0) + "/" + Padded(total, 0) + " RSSI=" + Padded(rssi, 0);
    LossFound(lid, rest);
    assert BoffLine(lid, lost, total, rssi) == "B" + Padded(lid, 2) + "00000  " + "LOSS=" + rest;
  }

  // ---------- The channel ----------

  lemma PrintedIsLine(s: Signal)
    requires Sendable(s)
    ensures IsLine(Print(s))
  {
    match s
    case Bon(lid, user, radio, peer, srcLid, tgid, callType) =>
      BonIsLine(lid, user, radio, peer, srcLid, tgid, callType);
    case Boff(lid, lost, total, rssi) =>
      BoffIsLine(lid, lost, total, rssi);
  }

  lemma NumericNoNewline(s: string)
    requires Numeric(s)
    ensures '\n' !in s
  {
  }

  lemma BonIsLine(lid: int, user: int, radio: nat, peer: nat, srcLid: int, tgid: int, callType: char)
    requires BonFields(lid, user, radio, peer, srcLid, tgid, callType)
    ensures IsLine(BonLine(lid, user, radio, peer, srcLid, tgid, callType))
  {
    hide Padded, Decimal, Numeric;
    PaddedIsNumeric(lid, 2); NumericNoNewline(Padded(lid, 2)); PaddedLength(lid, 2);
    PaddedIsNumeric(user, 3); NumericNoNewline(Padded(user, 3)); PaddedLength(user, 3);
    DecimalIsNumeric(radio); NumericNoNewline(Decimal(radio)); TenDigits(radio);
    DecimalIsNumeric(peer); NumericNoNewline(Decimal(peer)); TenDigits(peer);
    PaddedIsNumeric(srcLid, 2); NumericNoNewline(Padded(srcLid, 2)); PaddedLength(srcLid, 2);
    PaddedIsNumeric(tgid, 3); NumericNoNewline(Padded(tgid, 3)); PaddedLength(tgid, 3);
    assert '\n' !in BonHead(lid, user);
    assert '\n' !in BonMiddle(radio, peer);
    assert '\n' !in BonTail(srcLid, tgid, callType);
    var line := BonLine(lid, user, radio, peer, srcLid, tgid, callType);
    assert line[|line| - 1] == callType;
  }

  lemma BoffIsLine(lid: int, lost: int, total: int, rssi: int)
    requires IsInt32(lid) && IsInt32(lost) && IsInt32(total) && IsInt32(rssi)
    ensures IsLine(BoffLine(lid, lost, total, rssi))
  {
    hide Padded, Numeric;
    PaddedIsNumeric(lid, 2); NumericNoNewline(Padded(lid, 2)); PaddedLength(lid, 2);
    PaddedIsNumeric(lost, 0); NumericNoNewline(Padded(lost, 0)); PaddedLength(lost, 0);
    PaddedIsNumeric(total, 0); NumericNoNewline(Padded(total, 0)); PaddedLength(total, 0);
    PaddedIsNumeric(rssi, 0); NumericNoNewline(Padded(rssi, 0)); PaddedLength(rssi, 0);
    var line, n := BoffLine(lid, lost, total, rssi), Padded(rssi, 0);
    assert line[|line| - 1] == n[|n| - 1];
    NumericEnd(n);
  }

  lemma NumericEnd(s: string)
    requires Numeric(s) && s != ""
    ensures s[|s| - 1] != '\r'
  {
  }

  /** The bytes of a sequence of signals. */
  function Stream(signals: seq<Signal>): string {
    Joined(Prints(signals))
  }

  function Meanings(signals: seq<Signal>): seq<Message> {
    seq(|signals|, k requires 0 <= k < |signals| => Meaning(signals[k]))
  }

  function DispatchAll(lines: seq<string>): seq<Message> {
    seq(|lines|, k requires 0 <= k < |lines| => Dispatch(lines[k]))
  }

  predicate AllSendable(signals: seq<Signal>) {
    forall k :: 0 <= k < |signals| ==> Sendable(signals[k])
  }

  /** Every B-on has a LID that two characters can hold. */
  predicate AllReadable(signals: seq<Signal>) {
    forall k :: 0 <= k < |signals| ==> Readable(signals[k])
  }

  predicate Readable(s: Signal) {
    s.Bon? ==> -9 <= s.srcLid <= 99
  }

  function Prints(signals: seq<Signal>): seq<string> {
    seq(|signals|, k requires 0 <= k < |signals| => Print(signals[k]))
  }

  /** What was printed comes out as the same lines. */
  lemma StreamLines(signals: seq<Signal>)
    requires AllSendable(signals)
    ensures Feed("", Stream(signals)) == Fed("", Prints(signals))
  {
    hide Print, Sendable, Feed, IsLine, Joined;
    forall k | 0 <= k < |signals| ensures IsLine(Prints(signals)[k]) {
      PrintedIsLine(signals[k]);
    }
    LinesArrive(Prints(signals));
  }

  lemma MeaningsArrive(signals: seq<Signal>)
    requires AllSendable(signals)
    ensures DispatchAll(Prints(signals)) == Meanings(signals) <==> AllReadable(signals)
  {
    hide Print, Sendable, Dispatch, Meaning, Readable;
    var sent, meant := DispatchAll(Prints(signals)), Meanings(signals);
    forall k: nat | k < |signals| ensures sent[k] == meant[k] <==> Readable(signals[k]) {
      DispatchIff(signals[k]);
    }
    if sent == meant {
      assert forall k: nat :: k < |signals| ==> sent[k] == meant[k];
    }
  }

  lemma DispatchIff(s: Signal)
    requires Sendable(s)
    ensures Dispatch(Print(s)) == Meaning(s) <==> Readable(s)
  {
    hide Print, Sendable, Dispatch, Meaning;
    DispatchPrinted(s);
  }

  /** Any sequence of signals, printed, concatenated and received in any chunks, arrives
      line by line with nothing left in the buffer; it is dispatched as exactly what
      it means if and only if every B-on has a LID from -9 to 99. */
  lemma ChannelRoundTrip(signals: seq<Signal>, chunks: seq<string>)
    requires AllSendable(signals) && Flatten(chunks) == Stream(signals)
    ensures FeedChunks("", chunks) == Fed("", Prints(signals))
    ensures DispatchAll(FeedChunks("", chunks).lines) == Meanings(signals) <==> AllReadable(signals)
  {
    hide DispatchAll, Meanings, AllReadable;
    ChunksDoNotMatter("", chunks);
    StreamLines(signals);
    MeaningsArrive(signals);
  }
}
