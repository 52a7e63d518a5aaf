/** Line reassembly on the control connection, across arbitrary recv boundaries. */
module LineChannel {
  import opened Sequences

  const RXBUF_CAP: nat := 2048

  /** The part of a line that has come in so far. */
  type Buffered = s: string | |s| < RXBUF_CAP

  datatype Fed = Fed(buf: string, lines: seq<string>)

  /** The line a newline completes: without it, and without a `\r` before it. */
  function Line(b: string): string
    requires b != ""
  {
    var n := |b| - 1;
    if n > 0 && b[n - 1] == '\r' then b[..n - 1] else b[..n]
  }

  /** A full buffer drops bytes, the newline itself included. */
  function Stored(buf: string, c: char): (b: string)
    ensures b != ""
    ensures |buf| < RXBUF_CAP ==> |b| < RXBUF_CAP
  {
    if |buf| < RXBUF_CAP - 1 then buf + [c] else buf
  }

  /** What the bytes leave in the buffer and the lines they complete. */
  function Feed(buf: string, data: string): (r: Fed)
    requires |buf| < RXBUF_CAP
    ensures |r.buf| < RXBUF_CAP
  {
    if data == "" then Fed(buf, [])
    else
      var n := |data| - 1;
      var r := Feed(buf, data[..n]);
      var b := Stored(r.buf, data[n]);
      if data[n] == '\n' then Fed("", r.lines + [Line(b)]) else Fed(b, r.lines)
  }

  /** One recv after the other. */
  function FeedChunks(buf: string, chunks: seq<string>): (r: Fed)
    requires |buf| < RXBUF_CAP
    ensures |r.buf| < RXBUF_CAP
  {
    if chunks == [] then Fed(buf, [])
    else
      var r := FeedChunks(buf, chunks[..|chunks| - 1]);
      var s := Feed(r.buf, chunks[|chunks| - 1]);
      Fed(s.buf, r.lines + s.lines)
  }

  lemma {:induction false} FeedAppend(buf: string, a: string, b: string)
    requires |buf| < RXBUF_CAP
    ensures var r := Feed(buf, a); var s := Feed(r.buf, b); Feed(buf, a + b) == Fed(s.buf, r.lines + s.lines)
  {
    hide Line, Stored;
    var r := Feed(buf, a);
    if b == "" {
      assert a + b == a;
      assert r.lines + [] == r.lines;
    } else {
      var n := |b| - 1;
      assert (a + b)[..|a + b| - 1] == a + b[..n] && (a + b)[|a + b| - 1] == b[n];
      FeedAppend(buf, a, b[..n]);
      var s := Feed(r.buf, b[..n]);
      assert r.lines + (s.lines + [Line(Stored(s.buf, b[n]))]) == (r.lines + s.lines) + [Line(Stored(s.buf, b[n]))];
    }
  }

  /** How the stream is cut into chunks does not matter. */
  lemma {:induction false} ChunksDoNotMatter(buf: string, chunks: seq<string>)
    requires |buf| < RXBUF_CAP
    ensures FeedChunks(buf, chunks) == Feed(buf, Flatten(chunks))
  {
    if chunks != [] {
      var init := chunks[..|chunks| - 1];
      ChunksDoNotMatter(buf, init);
      FeedAppend(buf, Flatten(init), chunks[|chunks| - 1]);
    }
  }

  /** Text that reaches the callback as it was sent. */
  predicate IsLine(line: string) {
    |line| < 2047 && '\n' !in line && (line != "" ==> line[|line| - 1] != '\r')
  }

  lemma {:induction false} FeedText(text: string)
    requires |text| < 2048 && '\n' !in text
    ensures Feed("", text) == Fed(text, [])
  {
    if text != "" {
      FeedText(text[..|text| - 1]);
      assert text[..|text| - 1] + [text[|text| - 1]] == text;
    }
  }

  lemma FeedLine(line: string)
    requires IsLine(line)
    ensures Feed("", line + "\n") == Fed("", [line])
  {
    FeedText(line);
    var data := line + "\n";
    assert data[..|data| - 1] == line && data[|data| - 1] == '\n';
    assert Stored(line, '\n') == data;
    assert Line(data) == line;
  }

  /** Lines as they are sent. */
  function Joined(lines: seq<string>): string {
    if lines == [] then "" else Joined(lines[..|lines| - 1]) + (lines[|lines| - 1] + "\n")
  }

  /** Lines sent one after the other arrive as they were sent. */
  lemma {:induction false} LinesArrive(lines: seq<string>)
    requires forall k :: 0 <= k < |lines| ==> IsLine(lines[k])
    ensures Feed("", Joined(lines)) == Fed("", lines)
  {
    hide Feed, IsLine;
    if lines == [] {
      FeedEmpty("", "");
    } else {
      var init, last := lines[..|lines| - 1], lines[|lines| - 1];
      LinesArrive(init);
      FeedLine(last);
      FeedAppend("", Joined(init), last + "\n");
      assert init + [last] == lines;
    }
  }

  /** One `\r` before the newline is dropped with it, and no more than one. */
  lemma FeedCrLf(line: string)
    requires |line| < 2046 && '\n' !in line
    ensures Feed("", line + "\r\n") == Fed("", [line])
  {
    hide Feed, Stored, Line;
    var text := line + "\r";
    FeedText(text);
    FeedOne("", text, '\n');
    CrLfLine(line);
    assert line + "\r\n" == text + ['\n'];
  }

  lemma CrLfLine(line: string)
    requires |line| < 2046
    ensures Line(Stored(line + "\r", '\n')) == line
  {
    var text := line + "\r";
    var b := Stored(text, '\n');
    assert b == text + ['\n'] && b[|b| - 2] == '\r';
    assert b[..|line|] == line;
  }

  lemma {:induction false} FeedLong(text: string)
    requires |text| >= 2047 && '\n' !in text
    ensures Feed("", text) == Fed(text[..2047], [])
  {
    var n := |text| - 1;
    if n == 2046 {
      FeedText(text);
      assert text[..2047] == text;
    } else {
      FeedLong(text[..n]);
      assert text[..n][..2047] == text[..2047];
    }
  }

  /** A line too long for the buffer is cut to 2046 characters, for one more is taken for
      the newline, or to 2045 before a `\r`; the lines after it are not affected. */
  lemma FeedOverlong(text: string)
    requires |text| >= 2047 && '\n' !in text
    ensures Feed("", text + "\n") == Fed("", [if text[2045] == '\r' then text[..2045] else text[..2046]])
  {
    hide Feed, Line, Stored;
    FeedLong(text);
    FeedOne("", text, '\n');
    FullStays(text[..2047]);
    CutLine(text);
    assert text + "\n" == text + ['\n'];
  }

  lemma FullStays(b: string)
    requires |b| == 2047
    ensures Stored(b, '\n') == b
  {
  }

  lemma CutLine(text: string)
    requires |text| >= 2047
    ensures Line(text[..2047]) == if text[2045] == '\r' then text[..2045] else text[..2046]
  {
    assert text[..2047][..2046] == text[..2046] && text[..2047][..2045] == text[..2045];
  }

  // ---------- As the source computes it ----------

  class LineBuffer {
    const rxbuf: array<char>
    var rxlen: nat

    constructor ()
      ensures Valid() && fresh(rxbuf) && Contents() == ""
    {
      rxbuf := new char[RXBUF_CAP](_ => '\0');
      rxlen := 0;
    }

    ghost predicate Valid()
      reads this, rxbuf
    {
      rxbuf.Length == RXBUF_CAP && rxlen < RXBUF_CAP
    }

    ghost function Contents(): string
      requires Valid()
      reads this, rxbuf
    {
      rxbuf[..rxlen]
    }

    /** `lines` are the strings handed to the callback, in order. */
    method FeedBytes(data: string) returns (lines: seq<string>)
      requires Valid()
      modifies this, rxbuf
      ensures Valid() && Fed(Contents(), lines) == Feed(old(Contents()), data)
    {
      lines := [];
      ghost var start := Contents();
      hide Feed, Line, Stored;
      assert Feed(start, data[..0]) == Fed(start, []) by { FeedEmpty(start, data[..0]); }
      for i := 0 to |data|
        invariant Valid() && Fed(Contents(), lines) == Feed(start, data[..i])
      {
        FeedOne(start, data[..i], data[i]);
        assert data[..i + 1] == data[..i] + [data[i]];
        var line := FeedByte(data[i]);
        if data[i] == '\n' {
          lines := lines + [line];
        }
      }
      assert data[..|data|] == data;
    }

    /** One byte; the line it completes, if it is a newline. */
    method FeedByte(c: char) returns (line: string)
      requires Valid()
      modifies this, rxbuf
      ensures Valid()
      ensures var b := Stored(old(Contents()), c);
              if c == '\n' then Contents() == "" && line == Line(b) else Contents() == b
    {
      ghost var b := Stored(Contents(), c);
      line := "";
      if rxlen < RXBUF_CAP - 1 {
        rxbuf[rxlen] := c;
        rxlen := rxlen + 1;
      }
      assert Contents() == b;
      if c == '\n' {
        var n := rxlen - 1;
        if n > 0 && rxbuf[n - 1] == '\r' {
          n := n - 1;
        }
        assert rxbuf[..n] == Line(b);
        rxbuf[n] := '\0';
        line := rxbuf[..n];
        rxlen := 0;
      }
    }
  }

  lemma FeedEmpty(buf: string, data: string)
    requires |buf| < RXBUF_CAP && data == ""
    ensures Feed(buf, data) == Fed(buf, [])
  {
  }

  lemma FeedOne(buf: string, data: string, c: char)
    requires |buf| < RXBUF_CAP
    ensures var r := Feed(buf, data);
            var b := Stored(r.buf, c);
            Feed(buf, data + [c]) == if c == '\n' then Fed("", r.lines + [Line(b)]) else Fed(b, r.lines)
  {
    hide Stored, Line;
    assert (data + [c])[..|data|] == data;
  }
}
