/**
 * Encoder and receiver on one clock.  The receiver samples bit i of a frame i clocks late,
 * because it counts one clock too many for each bit; the link still carries every message
 * exactly when half a bit time is long enough for the whole drift.
 */
module UartLink {
  import opened Words
  import opened Uart

  // ----- The line as the encoder drives it

  /** Level of bit time `p` of the frame for one byte. */
  function FrameLevel(b: byte, p: nat): bool {
    if p == 0 then true
    else if p == 1 then false
    else if p <= 9 then BitOf(b, p - 2)
    else true
  }

  /** Level in bit time `u`: the frames in order, then a line that stays high. */
  function LineAt(data: seq<byte>, u: nat): bool {
    u / BITS_PER_FRAME < |data| ==> FrameLevel(data[u / BITS_PER_FRAME], u % BITS_PER_FRAME)
  }

  function Line(n: nat, data: seq<byte>, t: nat): bool {
    n > 0 ==> LineAt(data, t / n)
  }

  function EncoderAt(n: nat, data: seq<byte>, junk: Phase, t: nat): (e: Encoder)
    requires n > 0
    ensures e.cyclesPerBit == n && e.data == data && e.cycle == t
  {
    if t == 0 then NewEncoder(n, data, junk) else EncoderTick(EncoderAt(n, data, junk, t - 1))
  }

  /** State of the encoder throughout bit time `u`. */
  predicate InBitTime(e: Encoder, u: nat) {
    var k := u / BITS_PER_FRAME;
    var p := u % BITS_PER_FRAME;
    && e.level == LineAt(e.data, u)
    && (k < |e.data| ==>
          && e.phase == (if p == 0 then Idle else if p == 1 then StartBit else if p <= 9 then DataBits else StopBit)
          && e.nextPhase == (if p == 0 then StartBit else if p <= 8 then DataBits else if p == 9 then StopBit else Idle)
          && e.txBit == 8 * k + (if p <= 1 then 0 else if p <= 9 then p - 1 else 8)
          && e.bitCounter == (if 2 <= p <= 8 then p - 1 else 0))
    && (k >= |e.data| ==> e.phase == Idle && e.txBit == 8 * |e.data|)
  }

  /** One bit time to the next. */
  lemma UpdateAdvances(e: Encoder, u: nat)
    requires InBitTime(e, u) && e.cyclesPerBit > 0
    ensures InBitTime(if e.txBit < 8 * |e.data| || e.phase != Idle then OnUpdate(e) else e, u + 1)
  {
    var k := u / BITS_PER_FRAME;
    var p := u % BITS_PER_FRAME;
    if p == 10 {
      assert (u + 1) / BITS_PER_FRAME == k + 1 && (u + 1) % BITS_PER_FRAME == 0;
    } else {
      assert (u + 1) / BITS_PER_FRAME == k && (u + 1) % BITS_PER_FRAME == p + 1;
    }
  }

  lemma FirstUpdate(e: Encoder)
    requires e.txBit == 0 && e.bitCounter == 0 && e.nextPhase == Idle && e.level
    ensures InBitTime(if e.txBit < 8 * |e.data| || e.phase != Idle then OnUpdate(e) else e, 0)
  {
  }

  lemma NextTime(t: nat, n: nat)
    requires n > 0
    ensures if (t + 1) % n == 0 then (t + 1) / n == t / n + 1 else (t + 1) / n == t / n
  {
    var q, r := t / n, t % n;
    assert t == q * n + r;
    if r + 1 == n {
      assert t + 1 == (q + 1) * n + 0;
      DivModUnique(t + 1, n, q + 1, 0);
    } else {
      DivModUnique(t + 1, n, q, r + 1);
    }
  }

  /** Serialisation: after tick t the line shows the frame bit of that moment. */
  lemma {:induction false} EncoderDrivesLine(n: nat, data: seq<byte>, junk: Phase, t: nat)
    requires n > 0
    ensures InBitTime(EncoderAt(n, data, junk, t + 1), t / n)
  {
    if t == 0 {
      FirstUpdate(NewEncoder(n, data, junk));
      DivModUnique(0, n, 0, 0);
    } else {
      EncoderDrivesLine(n, data, junk, t - 1);
      NextTime(t - 1, n);
      TickInBitTime(EncoderAt(n, data, junk, t), (t - 1) / n, t / n);
    }
  }

  lemma TickInBitTime(e: Encoder, before: nat, after: nat)
    requires e.cyclesPerBit > 0 && InBitTime(e, before)
    requires after == if e.cycle % e.cyclesPerBit == 0 then before + 1 else before
    ensures InBitTime(EncoderTick(e), after)
  {
    if e.cycle % e.cyclesPerBit == 0 {
      UpdateAdvances(e, before);
    }
  }

  // ----- The receiver on an arbitrary line

  function ReceiverAt(n: nat, line: nat -> bool, t: nat): (r: Receiver)
    ensures |r.data| == 8
  {
    if t == 0 then RESET else Edge(n, ReceiverAt(n, line, t - 1), line(t - 1))
  }

  /** Bytes queued by the edges so far. */
  function Queued(n: nat, line: nat -> bool, t: nat): seq<nat> {
    if t == 0 then [] else
    var r := ReceiverAt(n, line, t);
    Queued(n, line, t - 1) + (if r.done then [ByteOf(r.data)] else [])
  }

  /** What the receiver sees before edge t: the line two edges ago. */
  predicate Seen(n: nat, line: nat -> bool, t: nat) {
    ReceiverAt(n, line, t).sync1
  }

  lemma SeenIsLine(n: nat, line: nat -> bool, t: nat)
    ensures t >= 2 ==> Seen(n, line, t) == line(t - 2)
    ensures t < 2 ==> !Seen(n, line, t)
  {
    if t >= 2 {
      assert ReceiverAt(n, line, t - 1).sync0 == line(t - 2);
    } else if t == 1 {
      assert ReceiverAt(n, line, 0).sync0 == false;
    }
  }

  /** One more edge: the new registers and what the device queues. */
  lemma OneEdge(n: nat, line: nat -> bool, t: nat)
    ensures ReceiverAt(n, line, t + 1) == Edge(n, ReceiverAt(n, line, t), line(t))
    ensures var r := ReceiverAt(n, line, t + 1);
            Queued(n, line, t + 1) == if r.done then Queued(n, line, t) + [ByteOf(r.data)] else Queued(n, line, t)
  {
  }

  lemma {:induction false} StartPhase(n: nat, line: nat -> bool, t: nat, j: nat)
    requires ReceiverAt(n, line, t).phase == Idle && !Seen(n, line, t)
    requires j <= n / 2
    ensures var r := ReceiverAt(n, line, t + 1 + j);
            r.phase == StartBit && r.clk == j && r.bit == 0
    ensures Queued(n, line, t + 1 + j) == Queued(n, line, t)
  {
    hide ReceiverAt, Queued, ByteOf;
    if j > 0 {
      StartPhase(n, line, t, j - 1);
    }
    OneEdge(n, line, t + j);
  }

  /** First clock of payload bit i of a frame noticed at edge t. */
  function BitStart(n: nat, t: nat, i: nat): nat {
    if i == 0 then t + 2 + n / 2 else BitStart(n, t, i - 1) + n + 1
  }

  /** Edge at which payload bit i is sampled. */
  function SampleEdge(n: nat, t: nat, i: nat): nat {
    BitStart(n, t, i) + n
  }

  /** The drift: one extra clock for every bit. */
  lemma {:induction false} BitStartIs(n: nat, t: nat, i: nat)
    ensures BitStart(n, t, i) == t + 2 + n / 2 + i * n + i
  {
    if i > 0 {
      BitStartIs(n, t, i - 1);
      assert i * n == (i - 1) * n + n;
    }
  }

  ghost predicate FrameStarts(n: nat, line: nat -> bool, t: nat) {
    && ReceiverAt(n, line, t).phase == Idle
    && !Seen(n, line, t)
    && !Seen(n, line, t + 1 + n / 2)
  }

  ghost predicate Captured(n: nat, line: nat -> bool, t: nat, r: Receiver, i: nat)
    requires |r.data| == 8
  {
    forall k :: 0 <= k < i && k < 8 ==> r.data[k] == Seen(n, line, SampleEdge(n, t, k))
  }

  /** While a payload bit lasts only the clock counter moves. */
  lemma {:induction false} CountBit(n: nat, line: nat -> bool, s: nat, j: nat)
    requires var r := ReceiverAt(n, line, s); r.phase == DataBits && r.clk == 0 && r.bit <= 7
    requires j <= n
    ensures var r, r' := ReceiverAt(n, line, s), ReceiverAt(n, line, s + j);
            r'.phase == DataBits && r'.clk == j && r'.bit == r.bit && r'.data == r.data
    ensures Queued(n, line, s + j) == Queued(n, line, s)
  {
    hide ReceiverAt, Queued, ByteOf;
    if j > 0 {
      CountBit(n, line, s, j - 1);
      OneEdge(n, line, s + j - 1);
    }
  }

  /** A full bit stores the level seen at its last clock. */
  lemma PayloadBit(n: nat, line: nat -> bool, s: nat)
    requires var r := ReceiverAt(n, line, s); r.phase == DataBits && r.clk == 0 && r.bit <= 7
    ensures var r, r' := ReceiverAt(n, line, s), ReceiverAt(n, line, s + n + 1);
            && r'.phase == DataBits && r'.clk == 0 && r'.bit == r.bit + 1
            && r'.data == r.data[r.bit := Seen(n, line, s + n)]
    ensures Queued(n, line, s + n + 1) == Queued(n, line, s)
  {
    hide ReceiverAt, Queued, ByteOf;
    CountBit(n, line, s, n);
    OneEdge(n, line, s + n);
  }

  lemma StartBitAccepted(n: nat, line: nat -> bool, t: nat)
    requires FrameStarts(n, line, t)
    ensures var r := ReceiverAt(n, line, BitStart(n, t, 0));
            r.phase == DataBits && r.clk == 0 && r.bit == 0
    ensures Queued(n, line, BitStart(n, t, 0)) == Queued(n, line, t)
  {
    hide ReceiverAt, Queued, ByteOf;
    StartPhase(n, line, t, n / 2);
    OneEdge(n, line, t + 1 + n / 2);
  }

  lemma {:induction false} PayloadPhase(n: nat, line: nat -> bool, t: nat, i: nat)
    requires FrameStarts(n, line, t) && i <= 8
    ensures var r := ReceiverAt(n, line, BitStart(n, t, i));
            r.phase == DataBits && r.clk == 0 && r.bit == i && Captured(n, line, t, r, i)
    ensures Queued(n, line, BitStart(n, t, i)) == Queued(n, line, t)
  {
    hide ReceiverAt, Queued, Captured, Seen;
    if i == 0 {
      StartBitAccepted(n, line, t);
      NoneCaptured(n, line, t, ReceiverAt(n, line, BitStart(n, t, 0)));
    } else {
      PayloadPhase(n, line, t, i - 1);
      PayloadBit(n, line, BitStart(n, t, i - 1));
      OneMoreCaptured(n, line, t, i);
    }
  }

  lemma NoneCaptured(n: nat, line: nat -> bool, t: nat, r: Receiver)
    requires |r.data| == 8
    ensures Captured(n, line, t, r, 0)
  {
  }

  lemma OneMoreCaptured(n: nat, line: nat -> bool, t: nat, i: nat)
    requires 1 <= i <= 8
    requires var r, r' := ReceiverAt(n, line, BitStart(n, t, i - 1)), ReceiverAt(n, line, BitStart(n, t, i));
             && Captured(n, line, t, r, i - 1)
             && r'.data == r.data[i - 1 := Seen(n, line, SampleEdge(n, t, i - 1))]
    ensures Captured(n, line, t, ReceiverAt(n, line, BitStart(n, t, i)), i)
  {
  }

  /** From the first clock after the payload to the middle of the stop bit. */
  lemma {:induction false} StopPhase(n: nat, line: nat -> bool, s: nat, j: nat)
    requires var r := ReceiverAt(n, line, s); r.phase == DataBits && r.clk == 0 && r.bit == 8
    requires 1 <= j <= n
    ensures var r := ReceiverAt(n, line, s + j);
            r.phase == StopBit && r.clk == j && r.data == ReceiverAt(n, line, s).data
    ensures Queued(n, line, s + j) == Queued(n, line, s)
    decreases j
  {
    hide ReceiverAt, Queued, ByteOf;
    if j > 1 {
      StopPhase(n, line, s, j - 1);
    }
    OneEdge(n, line, s + j - 1);
  }

  /** The middle of the stop bit raises `done` for one edge. */
  lemma StopDone(n: nat, line: nat -> bool, s: nat)
    requires n > 0
    requires var r := ReceiverAt(n, line, s); r.phase == DataBits && r.clk == 0 && r.bit == 8
    ensures ReceiverAt(n, line, s + n + 1).phase == Idle
    ensures Queued(n, line, s + n + 1) == Queued(n, line, s) + [ByteOf(ReceiverAt(n, line, s).data)]
  {
    StopPhase(n, line, s, n);
    OneEdge(n, line, s + n);
  }

  /** Edge after which the byte of the frame noticed at edge t is queued. */
  function FrameEnd(n: nat, t: nat): nat {
    BitStart(n, t, 9)
  }

  function Samples(n: nat, line: nat -> bool, t: nat): seq<bool> {
    seq(8, i requires 0 <= i < 8 => Seen(n, line, SampleEdge(n, t, i)))
  }

  lemma AllCaptured(n: nat, line: nat -> bool, t: nat, r: Receiver)
    requires |r.data| == 8 && Captured(n, line, t, r, 8)
    ensures r.data == Samples(n, line, t)
  {
  }

  /** Whatever the line does, one frame queues exactly the eight levels sampled. */
  lemma FrameDecodes(n: nat, line: nat -> bool, t: nat)
    requires n > 0 && FrameStarts(n, line, t)
    ensures ReceiverAt(n, line, FrameEnd(n, t)).phase == Idle
    ensures Queued(n, line, FrameEnd(n, t)) == Queued(n, line, t) + [ByteOf(Samples(n, line, t))]
  {
    hide ReceiverAt, Queued, Captured, Seen, ByteOf;
    var s := BitStart(n, t, 8);
    PayloadPhase(n, line, t, 8);
    StopDone(n, line, s);
    AllCaptured(n, line, t, ReceiverAt(n, line, s));
    assert FrameEnd(n, t) == s + n + 1;
  }

  /** While the line is seen high an idle receiver stays idle and queues nothing. */
  lemma {:induction false} IdlePhase(n: nat, line: nat -> bool, t: nat, until: nat)
    requires ReceiverAt(n, line, t).phase == Idle && t <= until
    requires forall s :: t <= s < until ==> Seen(n, line, s)
    ensures ReceiverAt(n, line, until).phase == Idle
    ensures Queued(n, line, until) == Queued(n, line, t)
    decreases until
  {
    hide ReceiverAt, Queued, ByteOf;
    if t < until {
      IdlePhase(n, line, t, until - 1);
      assert Seen(n, line, until - 1);
      OneEdge(n, line, until - 1);
    }
  }
}
