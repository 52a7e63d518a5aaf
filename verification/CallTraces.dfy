/** What it means for a trace to be bracketed. */
module CallTraces {
  import opened Bits
  import opened Burst
  import opened CallModel
  import opened CallTheorems
  import opened EmbeddedLc

  // ---------- Calls toward OpenBridge ----------

  /** Frames `h` to `k` belong to one call: the HEAD, then bursts numbered in turn,
      then at most a TERM, all with the same stream, source and talkgroup. */
  ghost predicate OneCall(t: seq<Out>, h: nat, k: nat) {
    && h <= k < |t| && IsHead(t[h])
    && forall j: nat :: h < j <= k ==> CallFrame(t, h, j) && (j < k ==> IsBurst(t[j]))
  }

  ghost predicate CallFrame(t: seq<Out>, h: nat, j: nat)
    requires h < j < |t| && t[h].Obp?
  {
    && t[j].Obp? && SameCall(t[h].frame, t[j].frame) && !IsHead(t[j])
    && (IsBurst(t[j]) ==>
          t[j].frame.flags == VoiceFlags((j - h - 1) % 6) && CarriesVoice(t[j].frame, (j - h - 1) % 6))
  }

  lemma CallBegins(t: seq<Out>, h: nat)
    requires h < |t| && IsHead(t[h])
    ensures OneCall(t, h, h)
  {
    hide CallFrame;
  }

  lemma CallGrows(t: seq<Out>, h: nat, k: nat)
    requires k + 1 < |t| && OneCall(t, h, k) && !IsTerm(t[k]) && CallFrame(t, h, k + 1)
    ensures OneCall(t, h, k + 1)
  {
    hide CarriesVoice, VoiceFlags;
  }

  lemma NextMod6(n: nat)
    ensures (n % 6 + 1) % 6 == (n + 1) % 6
  {
  }

  lemma NextFrame(l: LinkConfig, t: seq<Out>, h: nat, k: nat)
    requires k + 1 < |t| && OneCall(t, h, k) && MayFollow(l, t[k], t[k + 1]) && t[k + 1].Obp? && !IsHead(t[k + 1])
    ensures CallFrame(t, h, k + 1) && !IsTerm(t[k])
  {
    hide VoiceFlags, Position, CarriesVoice, CarriesLc;
    if h < k {
      assert CallFrame(t, h, k);
      FlagsPosition((k - h - 1) % 6);
      NextMod6(k - h - 1);
    }
  }

  lemma FrameBefore(l: LinkConfig, t: seq<Out>, k: nat)
    requires Bracketed(l, t) && k < |t| && t[k].Obp? && !IsHead(t[k])
    ensures k > 0 && t[k - 1].Obp? && MayFollow(l, t[k - 1], t[k])
  {
    hide CarriesLc, CarriesVoice, VoiceFlags, Position;
    assert MayFollow(l, Before(t, k), t[k]);
  }

  /** Every frame sent for a link belongs to a call its HEAD opened. */
  lemma {:induction false} EveryFrameHasItsCall(l: LinkConfig, t: seq<Out>, k: nat) returns (h: nat)
    requires Bracketed(l, t) && k < |t| && t[k].Obp?
    ensures OneCall(t, h, k)
  {
    hide OneCall, CallFrame, MayFollow, Bracketed;
    if IsHead(t[k]) {
      h := k;
      CallBegins(t, k);
    } else {
      FrameBefore(l, t, k);
      h := EveryFrameHasItsCall(l, t, k - 1);
      NextFrame(l, t, h, k - 1);
      CallGrows(t, h, k - 1);
    }
  }

  /** After an open call's frames only such frames or a TERM may come. */
  lemma FrameNext(l: LinkConfig, t: seq<Out>, h: nat, k: nat)
    requires Bracketed(l, t) && k + 1 < |t| && OneCall(t, h, k) && !IsTerm(t[k])
    ensures t[k + 1].Obp? && !IsHead(t[k + 1]) && MayFollow(l, t[k], t[k + 1])
  {
    hide CarriesLc, CarriesVoice, VoiceFlags, Position, OneCall, CallFrame;
    CallIsOpen(t, h, k);
    assert MayFollow(l, Before(t, k + 1), t[k + 1]);
  }

  lemma CallIsOpen(t: seq<Out>, h: nat, k: nat)
    requires OneCall(t, h, k)
    ensures t[k].Obp?
  {
    hide CarriesVoice, VoiceFlags;
    assert h < k ==> CallFrame(t, h, k);
  }

  /** From a HEAD until the first TERM nothing but that call's frames is sent. */
  lemma {:induction false} OnlyFramesUntilTerm(l: LinkConfig, t: seq<Out>, h: nat, k: nat)
    requires Bracketed(l, t) && h <= k < |t| && IsHead(t[h])
    requires forall m: nat :: h < m < k ==> !IsTerm(t[m])
    ensures OneCall(t, h, k)
  {
    hide OneCall, CallFrame, MayFollow;
    if k == h {
      CallBegins(t, h);
    } else {
      OnlyFramesUntilTerm(l, t, h, k - 1);
      FrameNext(l, t, h, k - 1);
      NextFrame(l, t, h, k - 1);
      CallGrows(t, h, k - 1);
    }
  }

  function Heads(t: seq<Out>): nat {
    if t == [] then 0 else Heads(t[..|t| - 1]) + if IsHead(t[|t| - 1]) then 1 else 0
  }

  function Terms(t: seq<Out>): nat {
    if t == [] then 0 else Terms(t[..|t| - 1]) + if IsTerm(t[|t| - 1]) then 1 else 0
  }

  lemma BracketedPrefix(l: LinkConfig, t: seq<Out>, n: nat)
    requires Bracketed(l, t) && n <= |t|
    ensures Bracketed(l, t[..n])
  {
    hide MayFollow;
    forall k: nat | k < n ensures MayFollow(l, Before(t[..n], k), t[..n][k]) {
      assert MayFollow(l, Before(t, k), t[k]);
    }
  }

  /** One TERM a HEAD, save for the call still open. */
  lemma {:induction false} OneTermPerHead(l: LinkConfig, t: seq<Out>)
    requires Bracketed(l, t)
    ensures Heads(t) == Terms(t) + if IsOpen(Before(t, |t|)) then 1 else 0
  {
    hide MayFollow, IsOpen, IsHead, IsTerm;
    if t == [] {
      NotOpenAtFirst();
    } else {
      var n := |t| - 1;
      BracketedPrefix(l, t, n);
      OneTermPerHead(l, t[..n]);
      assert Before(t[..n], n) == Before(t, n);
      assert MayFollow(l, Before(t, n), t[n]);
      OpenBalance(l, Before(t, n), t[n]);
    }
  }

  /** A cc-origin call is up after `o`. */
  predicate IsOpen(o: Out) {
    o.Obp? && !IsTerm(o)
  }

  lemma NotOpenAtFirst()
    ensures !IsOpen(Down)
  {
  }

  lemma OpenBalance(l: LinkConfig, prev: Out, o: Out)
    requires MayFollow(l, prev, o)
    ensures (if IsOpen(prev) then 1 else 0) + (if IsHead(o) then 1 else 0)
         == (if IsTerm(o) then 1 else 0) + (if IsOpen(o) then 1 else 0)
  {
    hide CarriesLc, CarriesVoice, VoiceFlags, Position;
  }

  /** Four frames in a row at burst positions 1 to 4. */
  ghost predicate FourBursts(t: seq<Out>, k: nat) {
    k + 4 <= |t| && forall j: nat :: k <= j < k + 4 ==> t[j].Obp? && t[j].frame.flags == VoiceFlags(j - k + 1)
  }

  function Payloads(t: seq<Out>, k: nat): (payloads: seq<seq<Byte>>)
    requires FourBursts(t, k)
    ensures |payloads| == 4
  {
    [t[k].frame.payload, t[k + 1].frame.payload, t[k + 2].frame.payload, t[k + 3].frame.payload]
  }

  /** A superframe on air carries the embedded LC that encodes the talkgroup and
      source of its own headers. */
  lemma SuperframeOnAir(l: LinkConfig, t: seq<Out>, k: nat)
    requires Bracketed(l, t) && FourBursts(t, k)
    ensures Superframe(Payloads(t, k), FrameLc(t[k].frame))
  {
    hide VoiceFlags, CarriesVoice, EncodeEmb, VoicePayload, CallLc, Bracketed;
    var lc, p := FrameLc(t[k].frame), Payloads(t, k);
    forall j: nat | j < 4 ensures CarriesFragment(p[j], lc, j) {
      SuperframeBurst(l, t, k, j);
      CarriedFragment(t[k + j].frame, t[k].frame, j);
    }
  }

  lemma LcTellsTheCall(tgid: nat, src: nat, tgid': nat, src': nat)
    requires CallLc(tgid, src) == CallLc(tgid', src')
    ensures tgid % 0x100_0000 == tgid' % 0x100_0000 && src % 0x100_0000 == src' % 0x100_0000
  {
    hide Wr24, Rd24;
    var a, b := CallLc(tgid, src), CallLc(tgid', src');
    assert a[3..6] == Wr24(tgid) && b[3..6] == Wr24(tgid');
    assert a[6..9] == Wr24(src) && b[6..9] == Wr24(src');
    ReadWritten24(tgid);
    ReadWritten24(tgid');
    ReadWritten24(src);
    ReadWritten24(src');
  }

  /** A receiver that joins late learns whom it hears from one superframe: equal
      superframes, of whatever links and runs, come from the same talkgroup and source. */
  lemma SuperframeTellsTheCall(l: LinkConfig, t: seq<Out>, k: nat, l': LinkConfig, t': seq<Out>, k': nat)
    requires Bracketed(l, t) && FourBursts(t, k) && Bracketed(l', t') && FourBursts(t', k')
    requires Payloads(t, k) == Payloads(t', k')
    ensures t[k].frame.dst % 0x100_0000 == t'[k'].frame.dst % 0x100_0000
    ensures t[k].frame.src % 0x100_0000 == t'[k'].frame.src % 0x100_0000
  {
    hide Superframe, Bracketed, CallLc, VoiceFlags;
    SuperframeOnAir(l, t, k);
    SuperframeOnAir(l', t', k');
    SuperframeDeterminesLc(Payloads(t, k), FrameLc(t[k].frame), FrameLc(t'[k'].frame));
    LcTellsTheCall(t[k].frame.dst, t[k].frame.src, t'[k'].frame.dst, t'[k'].frame.src);
  }

  lemma CarriedFragment(f: Dmrd, g: Dmrd, j: nat)
    requires j < 4 && CarriesVoice(f, j + 1) && SameCall(g, f)
    ensures CarriesFragment(f.payload, FrameLc(g), j)
  {
    hide EncodeEmb, VoicePayload, CallLc;
    var ambe21: Ambe21 :| f.payload == VoicePayload(EncodeEmb(FrameLc(f)), j + 1, ambe21);
  }

  lemma SuperframeBurst(l: LinkConfig, t: seq<Out>, k: nat, j: nat)
    requires Bracketed(l, t) && FourBursts(t, k) && j < 4
    ensures CarriesVoice(t[k + j].frame, j + 1) && SameCall(t[k].frame, t[k + j].frame)
  {
    hide OneCall, CallFrame, CarriesVoice, Bracketed;
    var h := EveryFrameHasItsCall(l, t, k + 3);
    CallCoversSuperframe(t, h, k, j);
  }

  lemma CallCoversSuperframe(t: seq<Out>, h: nat, k: nat, j: nat)
    requires FourBursts(t, k) && OneCall(t, h, k + 3) && j < 4
    ensures CarriesVoice(t[k + j].frame, j + 1) && SameCall(t[k].frame, t[k + j].frame)
  {
    hide VoiceFlags, CarriesVoice, Position;
    assert t[k + j].frame.flags == VoiceFlags(k + j - k + 1);
    FlagsPosition(j + 1);
    FlagsPosition(1);
    assert t[k].frame.flags == VoiceFlags(k - k + 1);
    assert h < k by { HeadBefore(t, h, k); }
    assert CallFrame(t, h, k) && CallFrame(t, h, k + j);
    FlagsPosition((k + j - h - 1) % 6);
  }

  /** The HEAD of the call is not one of the four bursts. */
  lemma HeadBefore(t: seq<Out>, h: nat, k: nat)
    requires FourBursts(t, k) && OneCall(t, h, k + 3)
    ensures h < k
  {
    hide VoiceFlags, CarriesVoice, Position, CallFrame;
    if h >= k {
      assert t[h].frame.flags == VoiceFlags(h - k + 1);
      FlagsPosition(h - k + 1);
    }
  }

  /** HEAD and TERM decode to zero options and to the talkgroup and source of
      their own headers. */
  lemma HeadersDecode(l: LinkConfig, t: seq<Out>, k: nat)
    requires Bracketed(l, t) && k < |t| && (IsHead(t[k]) || IsTerm(t[k]))
    ensures DecodesTo(t[k].frame.payload, t[k].frame.dst % 0x100_0000, t[k].frame.src % 0x100_0000)
  {
    hide DecodesTo, HeadTermPayload, CallLc, CarriesVoice, VoiceFlags, Position;
    assert MayFollow(l, Before(t, k), t[k]);
    HeadAndTermCarryTheCall(t[k].frame.dst, t[k].frame.src, IsTerm(t[k]));
  }

  // ---------- Flags ----------

  /** The flags of the n-th frame of a call, the HEAD being the 0-th: data sync and data
      type 1, then voice sync and the positions 1 to 5 over and over, then data type 2. */
  predicate NumberedFlags(flags: Byte, n: nat, last: bool) {
    flags as int == if n == 0 then 0x21 else if last then 0x22 else if n % 6 == 1 then 0x10 else (n + 5) % 6
  }

  lemma PositionFlags(pos: Place)
    ensures VoiceFlags(pos) as int == if pos == 0 then 0x10 else pos
  {
  }

  lemma PlaceOf(n: nat)
    requires 0 < n
    ensures (n - 1) % 6 == (n + 5) % 6 && ((n - 1) % 6 == 0 <==> n % 6 == 1)
  {
  }

  lemma FlagsOnAir(t: seq<Out>, h: nat, k: nat)
    requires OneCall(t, h, k)
    ensures t[k].Obp? && NumberedFlags(t[k].frame.flags, k - h, IsTerm(t[k]))
  {
    hide VoiceFlags, CarriesVoice;
    if h < k {
      assert CallFrame(t, h, k);
      PositionFlags((k - h - 1) % 6);
      PlaceOf(k - h);
    }
  }

  // ---------- Calls toward CC-CC ----------

  /** Requests `b` to `k` belong to one call: the B-on, then voice whose first
      packet alone is marked, then at most a B-off that tells the slots used. */
  ghost predicate OneTransmission(t: seq<Out>, b: nat, k: nat) {
    && b <= k < |t| && t[b].Bon?
    && (forall j: nat :: b < j < k ==> t[j].Voice?)
    && (forall j: nat :: b < j <= k && t[j].Voice? ==> t[j].marker == (j == b + 1))
    && (t[k].Boff? ==> t[k].lost == 0 && b < k && t[k].total == if k == b + 1 then 0 else Slot(t[k - 1]) + 1)
    && (t[k].Bon? ==> b == k) && !t[k].Obp?
  }

  function Slot(o: Out): int {
    if o.Voice? then o.slot else 0
  }

  lemma TransmissionGrows(l: LinkConfig, t: seq<Out>, b: nat, k: nat)
    requires k + 1 < |t| && OneTransmission(t, b, k) && MayFollow(l, t[k], t[k + 1])
    requires t[k + 1].Voice? || t[k + 1].Boff?
    ensures OneTransmission(t, b, k + 1)
  {
    hide RtpSeq, RtpTimestamp;
  }

  lemma RequestBefore(l: LinkConfig, t: seq<Out>, k: nat)
    requires Bracketed(l, t) && k < |t| && (t[k].Voice? || t[k].Boff?)
    ensures k > 0 && (t[k - 1].Bon? || t[k - 1].Voice?) && MayFollow(l, t[k - 1], t[k])
  {
    hide FrameFollows, RtpSeq, RtpTimestamp;
    assert MayFollow(l, Before(t, k), t[k]);
  }

  /** Every voice and B-off request belongs to a call its B-on opened. */
  lemma {:induction false} EveryRequestHasItsCall(l: LinkConfig, t: seq<Out>, k: nat) returns (b: nat)
    requires Bracketed(l, t) && k < |t| && (t[k].Bon? || t[k].Voice? || t[k].Boff?)
    ensures OneTransmission(t, b, k)
  {
    hide MayFollow, Bracketed, OneTransmission;
    if t[k].Bon? {
      b := k;
      TransmissionBegins(t, k);
    } else {
      RequestBefore(l, t, k);
      b := EveryRequestHasItsCall(l, t, k - 1);
      TransmissionGrows(l, t, b, k - 1);
    }
  }

  lemma TransmissionBegins(t: seq<Out>, b: nat)
    requires b < |t| && t[b].Bon?
    ensures OneTransmission(t, b, b)
  {
  }

  /** From a B-on until the first B-off or link loss only voice is sent. */
  lemma {:induction false} OnlyVoiceUntilBoff(l: LinkConfig, t: seq<Out>, b: nat, k: nat)
    requires Bracketed(l, t) && b < k < |t| && t[b].Bon?
    requires forall m: nat :: b < m < k ==> !t[m].Boff? && !t[m].Down?
    ensures t[k].Down? || ((t[k].Voice? || t[k].Boff?) && OneTransmission(t, b, k))
  {
    hide MayFollow, OneTransmission, Bracketed;
    if k > b + 1 {
      OnlyVoiceUntilBoff(l, t, b, k - 1);
    } else {
      TransmissionBegins(t, b);
    }
    RequestNext(l, t, k - 1);
    if !t[k].Down? {
      TransmissionGrows(l, t, b, k - 1);
    }
  }

  /** What may come after a B-on or voice. */
  lemma RequestNext(l: LinkConfig, t: seq<Out>, k: nat)
    requires Bracketed(l, t) && k + 1 < |t| && (t[k].Bon? || t[k].Voice?)
    ensures MayFollow(l, t[k], t[k + 1]) && (t[k + 1].Voice? || t[k + 1].Boff? || t[k + 1].Down?)
  {
    hide CarriesVoice, CarriesLc, VoiceFlags, Position, RtpSeq, RtpTimestamp;
    assert MayFollow(l, Before(t, k + 1), t[k + 1]);
  }

  // ---------- RTP ----------

  /** Slots are non-negative and never go back within a call. */
  ghost predicate SlotsGrow(t: seq<Out>) {
    forall k: nat :: k < |t| && t[k].Voice? ==>
      t[k].slot >= 0 && (Before(t, k).Voice? ==> Before(t, k).slot <= t[k].slot)
  }

  lemma {:induction false} SlotsOrdered(t: seq<Out>, i: nat, j: nat)
    requires SlotsGrow(t) && i <= j < |t| && forall k: nat :: i <= k <= j ==> t[k].Voice?
    ensures 0 <= t[i].slot <= t[j].slot
  {
    assert t[i].Voice? && t[j].Voice?;
    if i < j {
      SlotsOrdered(t, i, j - 1);
      assert Before(t, j) == t[j - 1];
    }
  }

  /** Two packets of a call less than 65536 slots apart: their timestamps differ by
      480 for every step of the sequence number. */
  lemma RtpConsistent(l: LinkConfig, t: seq<Out>, i: nat, j: nat)
    requires Bracketed(l, t) && SlotsGrow(t) && i <= j < |t| && forall k: nat :: i <= k <= j ==> t[k].Voice?
    requires t[j].slot - t[i].slot < 0x1_0000
    ensures (t[j].timestamp - t[i].timestamp) % 0x1_0000_0000 == 480 * ((t[j].seqNo - t[i].seqNo) % 0x1_0000)
  {
    hide RtpSeq, RtpTimestamp, Bracketed;
    SlotsOrdered(t, i, j);
    assert t[i].Voice? && t[j].Voice?;
    VoiceNumbers(l, t, i);
    VoiceNumbers(l, t, j);
    RtpDifference(t[i].slot, t[j].slot);
  }

  lemma VoiceNumbers(l: LinkConfig, t: seq<Out>, k: nat)
    requires Bracketed(l, t) && k < |t| && t[k].Voice?
    ensures t[k].seqNo == RtpSeq(t[k].slot) && t[k].timestamp == RtpTimestamp(t[k].slot)
  {
    hide FrameFollows, RtpSeq, RtpTimestamp;
    assert MayFollow(l, Before(t, k), t[k]);
  }

  lemma RtpDifference(a: nat, b: nat)
    requires a <= b < a + 0x1_0000
    ensures (RtpTimestamp(b) - RtpTimestamp(a)) % 0x1_0000_0000 == 480 * ((RtpSeq(b) - RtpSeq(a)) % 0x1_0000)
  {
    var d := b - a;
    assert (RtpSeq(b) - RtpSeq(a)) % 0x1_0000 == d by { DifferenceMod(a, b, 0x1_0000, d); }
    TimestampValue(a);
    TimestampValue(b);
    DifferenceMod(480 * a, 480 * b, 0x1_0000_0000, 480 * d);
  }

  lemma TimestampValue(s: int)
    ensures RtpTimestamp(s) == 480 * s % 0x1_0000_0000
  {
    var q, r := s / 0x1_0000_0000, s % 0x1_0000_0000;
    assert 480 * s == 480 * r + 0x1_0000_0000 * (480 * q);
    AddMultiple(480 * r, 0x1_0000_0000, 480 * q, 480 * s);
  }

  lemma AddMultiple(x: int, m: int, k: int, y: int)
    requires m > 0 && y == x + m * k
    ensures y % m == x % m
  {
    var q, r := x / m, x % m;
    assert y == m * (q + k) + r;
    UniqueRemainder(y, m, q + k, r);
  }

  lemma UniqueRemainder(y: int, m: int, q: int, r: int)
    requires m > 0 && y == m * q + r && 0 <= r < m
    ensures y % m == r
  {
    var p := y / m - q;
    assert m * p == r - y % m;
    NoMultipleBetween(m, p);
  }

  lemma NoMultipleBetween(m: int, p: int)
    requires m > 0 && -m < m * p < m
    ensures p == 0
  {
    if p >= 1 {
      MultipleAtLeast(m, p);
    } else if p <= -1 {
      MultipleAtLeast(m, -p);
    }
  }

  lemma MultipleAtLeast(m: int, p: int)
    requires m > 0 && p >= 1
    ensures m * p >= m
  {
  }

  lemma DifferenceMod(a: int, b: int, m: int, d: int)
    requires m > 0 && b - a == d && 0 <= d < m
    ensures (b % m - a % m) % m == d
  {
    var p, q := a / m, b / m;
    Quotients(a, b, m, p, q);
    AddMultiple(d, m, p - q, b % m - a % m);
    UniqueRemainder(d, m, 0, d);
  }

  lemma Quotients(a: int, b: int, m: int, p: int, q: int)
    requires m > 0 && p == a / m && q == b / m
    ensures b % m - a % m == b - a + m * (p - q)
  {
    assert a % m == a - m * p && b % m == b - m * q;
    assert m * (p - q) == m * p - m * q;
  }
}
