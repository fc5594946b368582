/** From line levels to messages: which bit times carry every message, and which do not. */
module UartRoundTrip {
  import opened Words
  import opened Uart
  import opened UartLink

  function LineOf(n: nat, data: seq<byte>): nat -> bool {
    (t: nat) => Line(n, data, t)
  }

  // ----- Both devices on one clock: an encoder tick, then two ticks of the device

  datatype System = System(encoder: Encoder, device: Device)

  function Period(s: System): System
    requires s.encoder.cyclesPerBit > 0 && |s.device.rx.data| == 8
  {
    var encoder := EncoderTick(s.encoder);
    System(encoder, DeviceTick(DeviceTick(s.device, encoder.level), encoder.level))
  }

  function SystemAt(n: nat, data: seq<byte>, junk: Phase, t: nat): (s: System)
    requires n > 0
    ensures s.encoder == EncoderAt(n, data, junk, t) && |s.device.rx.data| == 8 && s.device.n == n && !s.device.clock
  {
    if t == 0 then System(NewEncoder(n, data, junk), Device(n, RESET, false, []))
    else Period(SystemAt(n, data, junk, t - 1))
  }

  /** Two ticks of the device are one rising edge; `done` is seen once. */
  lemma TwoTicks(d: Device, level: bool)
    requires |d.rx.data| == 8 && !d.clock
    ensures var rx := Edge(d.n, d.rx, level);
            DeviceTick(DeviceTick(d, level), level) ==
            Device(d.n, rx, false, if rx.done then d.queue + [ByteOf(rx.data)] else d.queue)
  {
  }

  lemma PeriodQueues(n: nat, line: nat -> bool, t: nat, d: Device)
    requires d == Device(n, ReceiverAt(n, line, t), false, Queued(n, line, t))
    ensures DeviceTick(DeviceTick(d, line(t)), line(t)) ==
            Device(n, ReceiverAt(n, line, t + 1), false, Queued(n, line, t + 1))
  {
    TwoTicks(d, line(t));
    OneEdge(n, line, t);
  }

  lemma LineLevel(n: nat, data: seq<byte>, junk: Phase, t: nat)
    requires n > 0
    ensures SystemAt(n, data, junk, t + 1).encoder.level == LineOf(n, data)(t)
    ensures SystemAt(n, data, junk, t + 1).device ==
            DeviceTick(DeviceTick(SystemAt(n, data, junk, t).device, LineOf(n, data)(t)), LineOf(n, data)(t))
  {
    EncoderDrivesLine(n, data, junk, t);
  }

  /** The device queues what the receiver decodes from the encoder's line, each byte once. */
  lemma {:induction false} SystemQueues(n: nat, data: seq<byte>, junk: Phase, t: nat)
    requires n > 0
    ensures SystemAt(n, data, junk, t).device ==
            Device(n, ReceiverAt(n, LineOf(n, data), t), false, Queued(n, LineOf(n, data), t))
  {
    if t > 0 {
      var p, line := t - 1, LineOf(n, data);
      SystemQueues(n, data, junk, p);
      LineLevel(n, data, junk, p);
      PeriodQueues(n, line, p, SystemAt(n, data, junk, p).device);
    }
  }

  // ----- Bytes and bits

  /** Sampling each bit of a number that fits gives back the number. */
  lemma {:induction false} BitsRecompose(x: nat, s: seq<bool>)
    requires x < Exp2(|s|) && forall i :: 0 <= i < |s| ==> s[i] == BitOf(x, i)
    ensures ByteOf(s) == x
  {
    if s != [] {
      forall i | 0 <= i < |s| - 1
        ensures s[1..][i] == BitOf(x / 2, i)
      {
        assert s[i + 1] == BitOf(x, i + 1);
      }
      BitsRecompose(x / 2, s[1..]);
    }
  }

  lemma ByteFits(b: byte)
    ensures b < Exp2(8)
  {
    assert Exp2(4) == 16;
    assert Exp2(6) == 64;
  }

  /** A string of bits with its last bit set is not zero. */
  lemma {:induction false} LastBitCounts(s: seq<bool>)
    requires |s| > 0 && s[|s| - 1]
    ensures ByteOf(s) != 0
  {
    if |s| > 1 {
      LastBitCounts(s[1..]);
    }
  }

  // ----- Where each clock of the line falls

  lemma LineInFrame(n: nat, data: seq<byte>, k: nat, p: nat, r: nat)
    requires n > 0 && k < |data| && p <= 10 && r < n
    ensures LineOf(n, data)(11 * k * n + p * n + r) == FrameLevel(data[k], p)
  {
    var u := 11 * k + p;
    assert 11 * k * n + p * n + r == u * n + r;
    DivModUnique(11 * k * n + p * n + r, n, u, r);
    DivModUnique(u, 11, k, p);
  }

  lemma LineAfter(n: nat, data: seq<byte>, t: nat)
    requires n > 0 && t >= 11 * |data| * n
    ensures LineOf(n, data)(t)
  {
    DivBounds(t, n, 11 * |data|);
  }

  lemma SeenInFrame(n: nat, data: seq<byte>, k: nat, p: nat, r: nat)
    requires n > 0 && k < |data| && p <= 10 && r < n
    ensures Seen(n, LineOf(n, data), 11 * k * n + p * n + r + 2) == FrameLevel(data[k], p)
  {
    LineInFrame(n, data, k, p, r);
    SeenIsLine(n, LineOf(n, data), 11 * k * n + p * n + r + 2);
  }

  // ----- The bound is sufficient

  /** Edge at which the receiver is idle again after k frames. */
  function Settled(n: nat, k: nat): nat {
    if k == 0 then 2 + n / 2 else 11 * (k - 1) * n + 10 * n + 13 + n / 2
  }

  /** The line is seen high from there to the next start bit. */
  lemma QuietBetween(n: nat, data: seq<byte>, k: nat, s: nat)
    requires n - n / 2 >= 10 && k <= |data|
    requires Settled(n, k) <= s && (k < |data| ==> s < 11 * k * n + n + 2)
    ensures Seen(n, LineOf(n, data), s)
  {
    hide Seen, LineOf;
    var next := 11 * k * n;
    if s - 2 >= next {
      if k < |data| {
        SeenInFrame(n, data, k, 0, s - 2 - next);
      } else {
        LineAfter(n, data, s - 2);
        SeenIsLine(n, LineOf(n, data), s);
      }
    } else {
      var base := 11 * (k - 1) * n;
      assert next == base + 11 * n;
      SeenInFrame(n, data, k - 1, 10, s - 2 - base - 10 * n);
    }
  }

  /** Bit i is sampled i clocks late, and still inside its own bit time. */
  lemma SampleInBit(n: nat, data: seq<byte>, k: nat, i: nat)
    requires n - n / 2 >= 10 && k < |data| && i <= 7
    ensures Seen(n, LineOf(n, data), SampleEdge(n, 11 * k * n + n + 2, i)) == BitOf(data[k], i)
  {
    var t := 11 * k * n + n + 2;
    BitStartIs(n, t, i);
    assert SampleEdge(n, t, i) == 11 * k * n + (i + 2) * n + (2 + n / 2 + i) + 2 by {
      assert (i + 2) * n == i * n + 2 * n;
    }
    SeenInFrame(n, data, k, i + 2, 2 + n / 2 + i);
  }

  lemma FrameNoticed(n: nat, data: seq<byte>, k: nat)
    requires n - n / 2 >= 10 && k < |data|
    requires ReceiverAt(n, LineOf(n, data), Settled(n, k)).phase == Idle
    ensures var t := 11 * k * n + n + 2;
            && FrameStarts(n, LineOf(n, data), t)
            && Queued(n, LineOf(n, data), t) == Queued(n, LineOf(n, data), Settled(n, k))
  {
    hide ReceiverAt, Queued, LineOf;
    var t := 11 * k * n + n + 2;
    SettledBefore(n, k);
    forall s | Settled(n, k) <= s < t
      ensures Seen(n, LineOf(n, data), s)
    {
      QuietBetween(n, data, k, s);
    }
    IdlePhase(n, LineOf(n, data), Settled(n, k), t);
    SeenInFrame(n, data, k, 1, 0);
    SeenInFrame(n, data, k, 1, 1 + n / 2);
  }

  lemma SamplesAreTheByte(n: nat, data: seq<byte>, k: nat)
    requires n - n / 2 >= 10 && k < |data|
    ensures ByteOf(Samples(n, LineOf(n, data), 11 * k * n + n + 2)) == data[k]
  {
    var samples := Samples(n, LineOf(n, data), 11 * k * n + n + 2);
    forall i | 0 <= i < 8
      ensures samples[i] == BitOf(data[k], i)
    {
      SampleInBit(n, data, k, i);
    }
    ByteFits(data[k]);
    BitsRecompose(data[k], samples);
  }

  lemma OneFrame(n: nat, data: seq<byte>, k: nat)
    requires n - n / 2 >= 10 && k < |data|
    requires ReceiverAt(n, LineOf(n, data), Settled(n, k)).phase == Idle
    ensures ReceiverAt(n, LineOf(n, data), Settled(n, k + 1)).phase == Idle
    ensures Queued(n, LineOf(n, data), Settled(n, k + 1)) == Queued(n, LineOf(n, data), Settled(n, k)) + [data[k]]
  {
    hide ReceiverAt, Queued, LineOf, Samples, ByteOf, FrameStarts, FrameEnd;
    var t := 11 * k * n + n + 2;
    FrameNoticed(n, data, k);
    FrameDecodes(n, LineOf(n, data), t);
    SamplesAreTheByte(n, data, k);
    EndIsSettled(n, k);
  }

  lemma EndIsSettled(n: nat, k: nat)
    ensures FrameEnd(n, 11 * k * n + n + 2) == Settled(n, k + 1)
  {
    BitStartIs(n, 11 * k * n + n + 2, 9);
  }

  lemma SettledBefore(n: nat, k: nat)
    requires n - n / 2 >= 10
    ensures Settled(n, k) <= 11 * k * n + n + 2
  {
    if k > 0 {
      assert 11 * k * n == 11 * (k - 1) * n + 11 * n;
    }
  }

  /** The reset value of the synchroniser looks like a start bit, and is dismissed as noise. */
  lemma FalseStart(n: nat, data: seq<byte>)
    requires n >= 2
    ensures ReceiverAt(n, LineOf(n, data), 2 + n / 2).phase == Idle
    ensures Queued(n, LineOf(n, data), 2 + n / 2) == []
  {
    hide LineOf;
    var line := LineOf(n, data);
    StartPhase(n, line, 0, n / 2);
    if |data| > 0 {
      SeenInFrame(n, data, 0, 0, n / 2 - 1);
    } else {
      LineAfter(n, data, n / 2 - 1);
      SeenIsLine(n, line, n / 2 + 1);
    }
    OneEdge(n, line, 1 + n / 2);
  }

  lemma {:induction false} AfterFrames(n: nat, data: seq<byte>, k: nat)
    requires n - n / 2 >= 10 && k <= |data|
    ensures ReceiverAt(n, LineOf(n, data), Settled(n, k)).phase == Idle
    ensures Queued(n, LineOf(n, data), Settled(n, k)) == data[..k]
  {
    hide ReceiverAt, Queued, LineOf;
    if k == 0 {
      FalseStart(n, data);
    } else {
      AfterFrames(n, data, k - 1);
      OneFrame(n, data, k - 1);
      assert data[..k] == data[..k - 1] + [data[k - 1]];
    }
  }

  lemma {:induction false} QueueGrows(n: nat, line: nat -> bool, t: nat, later: nat)
    requires t <= later
    ensures Queued(n, line, t) <= Queued(n, line, later)
    decreases later
  {
    if t < later {
      QueueGrows(n, line, t, later - 1);
    }
  }

  /** Nothing more is queued once the message has been received. */
  lemma AfterMessage(n: nat, data: seq<byte>, t: nat)
    requires n - n / 2 >= 10 && t >= Settled(n, |data|)
    ensures Queued(n, LineOf(n, data), t) == data
  {
    AfterFrames(n, data, |data|);
    assert data[..|data|] == data;
    forall s | Settled(n, |data|) <= s < t
      ensures Seen(n, LineOf(n, data), s)
    {
      QuietBetween(n, data, |data|, s);
    }
    IdlePhase(n, LineOf(n, data), Settled(n, |data|), t);
  }

  /**
   * Round trip: at every moment the queue holds a prefix of the message, in order and without
   * repetition, and from a known moment on it holds the whole message.
   */
  lemma RoundTrip(n: nat, data: seq<byte>, junk: Phase, t: nat)
    requires n - n / 2 >= 10
    ensures SystemAt(n, data, junk, t).device.queue <= data
    ensures t >= Settled(n, |data|) ==> SystemAt(n, data, junk, t).device.queue == data
  {
    SystemQueues(n, data, junk, t);
    var later := if t >= Settled(n, |data|) then t else Settled(n, |data|);
    AfterMessage(n, data, later);
    QueueGrows(n, LineOf(n, data), t, later);
  }

  // ----- The bound is necessary

  lemma ZeroLow(n: nat, r: nat)
    requires n > 0 && n <= r < 10 * n
    ensures !LineOf(n, [0])(r)
  {
    DivBounds(r, n, 1);
    DivBounds(r, n, 10);
    if r / n >= 2 {
      ZeroBit(r / n - 2);
    }
  }

  lemma {:induction false} ZeroBit(k: nat)
    ensures !BitOf(0, k)
  {
    if k > 0 {
      ZeroBit(k - 1);
    }
  }

  lemma ZeroHigh(n: nat, r: nat)
    requires n > 0 && r >= 10 * n
    ensures LineOf(n, [0])(r)
  {
    if r < 11 * n {
      LineInFrame(n, [0], 0, 10, r - 10 * n);
    } else {
      LineAfter(n, [0], r);
    }
  }

  /** The edge at which the frame of a zero byte is taken to start. */
  function NoticedAt(n: nat): nat {
    if n == 1 then 0 else n + 2
  }

  lemma ZeroNoticed(n: nat)
    requires 0 < n < 19
    ensures FrameStarts(n, LineOf(n, [0]), NoticedAt(n))
    ensures Queued(n, LineOf(n, [0]), NoticedAt(n)) == []
  {
    hide ReceiverAt, Queued, LineOf;
    var line := LineOf(n, [0]);
    if n == 1 {
      AtReset(n, line);
      SeenIsLine(1, line, 0);
      SeenIsLine(1, line, 1);
    } else {
      QuietStart(n);
      SeenIsLine(n, line, n + 2);
      ZeroLow(n, n);
      SeenIsLine(n, line, n + 3 + n / 2);
      ZeroLow(n, n + 1 + n / 2);
    }
  }

  lemma AtReset(n: nat, line: nat -> bool)
    ensures ReceiverAt(n, line, 0).phase == Idle && Queued(n, line, 0) == []
  {
  }

  lemma QuietStart(n: nat)
    requires n >= 2
    ensures ReceiverAt(n, LineOf(n, [0]), n + 2).phase == Idle
    ensures Queued(n, LineOf(n, [0]), n + 2) == []
  {
    hide ReceiverAt, Queued, LineOf, Seen;
    FalseStart(n, [0]);
    forall s | 2 + n / 2 <= s < n + 2
      ensures Seen(n, LineOf(n, [0]), s)
    {
      SeenInFrame(n, [0], 0, 0, s - 2);
    }
    IdlePhase(n, LineOf(n, [0]), 2 + n / 2, n + 2);
  }

  /** With a shorter bit time the last payload bit is read from the stop bit or later. */
  lemma LateSample(n: nat)
    requires n > 0 && n - n / 2 < 10
    ensures Seen(n, LineOf(n, [0]), SampleEdge(n, NoticedAt(n), 7))
  {
    var t := NoticedAt(n);
    BitStartIs(n, t, 7);
    var e := SampleEdge(n, t, 7);
    SeenIsLine(n, LineOf(n, [0]), e);
    ZeroHigh(n, e - 2);
  }

  lemma FirstByteWrong(n: nat)
    requires n > 0 && n - n / 2 < 10
    ensures |Queued(n, LineOf(n, [0]), FrameEnd(n, NoticedAt(n)))| == 1
    ensures Queued(n, LineOf(n, [0]), FrameEnd(n, NoticedAt(n)))[0] != 0
  {
    ZeroNoticed(n);
    LateSample(n);
    FrameDecodes(n, LineOf(n, [0]), NoticedAt(n));
    LastBitCounts(Samples(n, LineOf(n, [0]), NoticedAt(n)));
  }

  /** A zero byte is then never received as such. */
  lemma ZeroIsLost(n: nat, junk: Phase, t: nat)
    requires n > 0 && n - n / 2 < 10
    ensures SystemAt(n, [0], junk, t).device.queue != [0]
  {
    FirstByteWrong(n);
    SystemQueues(n, [0], junk, t);
    var end := FrameEnd(n, NoticedAt(n));
    if t <= end {
      QueueGrows(n, LineOf(n, [0]), t, end);
    } else {
      QueueGrows(n, LineOf(n, [0]), end, t);
    }
  }

  /** The message gets through. */
  ghost predicate Delivered(n: nat, junk: Phase, data: seq<byte>)
    requires n > 0
  {
    exists t :: SystemAt(n, data, junk, t).device.queue == data
  }

  /** Every message gets through. */
  ghost predicate Faithful(n: nat, junk: Phase)
    requires n > 0
  {
    forall data: seq<byte> :: Delivered(n, junk, data)
  }

  /** The link carries every message exactly when half a bit time covers payload plus two clocks. */
  lemma FaithfulIff(n: nat, junk: Phase)
    requires n > 0
    ensures Faithful(n, junk) <==> n - n / 2 >= PAYLOAD_BITS + 2
  {
    if n - n / 2 >= 10 {
      forall data: seq<byte>
        ensures Delivered(n, junk, data)
      {
        RoundTrip(n, data, junk, Settled(n, |data|));
      }
    } else {
      forall t: nat
        ensures SystemAt(n, [0], junk, t).device.queue != [0]
      {
        ZeroIsLost(n, junk, t);
      }
      assert !Delivered(n, junk, [0]);
    }
  }

  /** A bench of the two objects, ticked as the emulator's clock would tick them. */
  method Transmit(n: nat, data: seq<byte>, junk: Phase, periods: nat) returns (received: seq<nat>)
    requires n - n / 2 >= PAYLOAD_BITS + 2 && periods >= Settled(n, |data|)
    ensures received == data
  {
    hide EncoderTick, DeviceTick, Settled;
    var encoder := new UartEncoder(n, data, junk);
    var device := new UartRtl(n);
    var t := 0;
    while t < periods
      invariant t <= periods && device.Valid() && encoder.cyclesPerBit == n
      invariant fresh(encoder) && fresh(device) && fresh(device.recvData)
      invariant System(encoder.State(), device.State()) == SystemAt(n, data, junk, t)
    {
      ghost var before := System(encoder.State(), device.State());
      encoder.Tick();
      device.Tick(encoder.currentLogicVal);
      device.Tick(encoder.currentLogicVal);
      assert System(encoder.State(), device.State()) == Period(before);
      t := t + 1;
    }
    RoundTrip(n, data, junk, periods);
    received := device.rx;
  }
}
