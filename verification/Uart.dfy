/**
 * The serial link: the encoder that turns bytes into line levels, and the receiver circuit
 * with the device that queues what it decodes.  A level is true for a high line.
 */
module Uart {
  import opened Words

  const PAYLOAD_BITS := 8

  /** Idle, start bit, payload and stop bit. */
  const BITS_PER_FRAME := 11

  datatype Phase = Idle | StartBit | DataBits | StopBit

  /** Bit k of a number: shift right k times, keep the last bit. */
  predicate BitOf(x: nat, k: nat) {
    if k == 0 then x % 2 == 1 else BitOf(x / 2, k - 1)
  }

  /** Number whose bits, least significant first, are given. */
  function ByteOf(bits: seq<bool>): nat {
    if bits == [] then 0 else (if bits[0] then 1 else 0) + 2 * ByteOf(bits[1..])
  }

  // ----- Encoder

  datatype Encoder = Encoder(cyclesPerBit: nat, data: seq<byte>, phase: Phase, nextPhase: Phase,
                             cycle: nat, bitCounter: nat, txBit: nat, level: bool)

  /** Payload bit `index` of the message. */
  function TxBit(data: seq<byte>, index: nat): bool {
    index / 8 < |data| && BitOf(data[index / 8], index % 8)
  }

  function LevelFor(e: Encoder, phase: Phase): bool {
    match phase
    case Idle => true
    case StartBit => false
    case DataBits => TxBit(e.data, e.txBit)
    case StopBit => true
  }

  /** Once per bit time: enter the next phase, drive its level, and choose what follows. */
  function OnUpdate(e: Encoder): Encoder {
    var moved := e.(phase := e.nextPhase, level := LevelFor(e, e.nextPhase));
    match moved.phase
    case Idle => moved.(nextPhase := StartBit)
    case StartBit => moved.(nextPhase := DataBits)
    case DataBits =>
      if e.bitCounter + 1 == PAYLOAD_BITS
      then moved.(bitCounter := 0, txBit := e.txBit + 1, nextPhase := StopBit)
      else moved.(bitCounter := e.bitCounter + 1, txBit := e.txBit + 1)
    case StopBit => moved.(nextPhase := Idle)
  }

  function EncoderTick(e: Encoder): Encoder
    requires e.cyclesPerBit > 0
  {
    var ticked := if e.cycle % e.cyclesPerBit == 0 && (e.txBit < 8 * |e.data| || e.phase != Idle)
                  then OnUpdate(e) else e;
    ticked.(cycle := e.cycle + 1)
  }

  /** A new encoder; its current phase is whatever the memory held. */
  function NewEncoder(cyclesPerBit: nat, data: seq<byte>, junk: Phase): Encoder {
    Encoder(cyclesPerBit, data, junk, Idle, 0, 0, 0, true)
  }

  class UartEncoder {
    const cyclesPerBit: nat
    var txData: seq<byte>
    var currentState: Phase
    var nextState: Phase
    var cycleCounter: nat
    var bitCounter: nat
    var txBitCounter: nat
    var currentLogicVal: bool

    ghost function State(): Encoder
      reads this
    {
      Encoder(cyclesPerBit, txData, currentState, nextState, cycleCounter, bitCounter, txBitCounter, currentLogicVal)
    }

    constructor (cyclesPerBit: nat, data: seq<byte>, junk: Phase)
      ensures State() == NewEncoder(cyclesPerBit, data, junk)
    {
      this.cyclesPerBit := cyclesPerBit;
      txData := data;
      currentState, nextState := junk, Idle;
      cycleCounter, bitCounter, txBitCounter := 0, 0, 0;
      currentLogicVal := true;
    }

    method GetBit() returns (level: bool)
      ensures level == LevelFor(State(), currentState)
    {
      match currentState
      case Idle => level := true;
      case StartBit => level := false;
      case DataBits => level := TxBit(txData, txBitCounter);
      case StopBit => level := true;
    }

    method Update()
      modifies this
      ensures State() == OnUpdate(old(State()))
    {
      currentState := nextState;
      currentLogicVal := GetBit();
      match currentState {
        case Idle => nextState := StartBit;
        case StartBit => nextState := DataBits;
        case DataBits =>
          bitCounter := bitCounter + 1;
          txBitCounter := txBitCounter + 1;
          if bitCounter == PAYLOAD_BITS {
            bitCounter := 0;
            nextState := StopBit;
          }
        case StopBit => nextState := Idle;
      }
    }

    method Tick()
      requires cyclesPerBit > 0
      modifies this
      ensures State() == EncoderTick(old(State()))
    {
      if cycleCounter % cyclesPerBit == 0 {
        if txBitCounter < 8 * |txData| || currentState != Idle {
          Update();
        }
      }
      cycleCounter := cycleCounter + 1;
    }
  }

  // ----- Receiver circuit

  datatype Receiver = Receiver(sync0: bool, sync1: bool, phase: Phase, clk: nat, bit: nat,
                               done: bool, data: seq<bool>)

  const RESET := Receiver(false, false, Idle, 0, 0, false, [false, false, false, false, false, false, false, false])

  /** One rising clock edge, computed from the registers before it. */
  function Edge(n: nat, r: Receiver, line: bool): Receiver
    requires |r.data| == 8
  {
    var startMid := r.phase == StartBit && r.clk == n / 2;
    var dataMid := r.phase == DataBits && r.clk == n;
    var stopMid := r.phase == StopBit && r.clk == n;
    Receiver(
      line,
      r.sync0,
      NextPhase(r, startMid, stopMid),
      match r.phase {
        case Idle => 0
        case StartBit => if r.clk < n / 2 then r.clk + 1 else 0
        case _ => if r.clk < n then r.clk + 1 else 0
      },
      if r.phase == Idle then 0
      else if dataMid then (if r.bit < PAYLOAD_BITS then r.bit + 1 else 0)
      else r.bit,
      stopMid,
      if dataMid then r.data[r.bit % 8 := r.sync1] else r.data)
  }

  function NextPhase(r: Receiver, startMid: bool, stopMid: bool): Phase {
    match r.phase
    case Idle => if !r.sync1 then StartBit else Idle
    case StartBit => if startMid then (if !r.sync1 then DataBits else Idle) else StartBit
    case DataBits => if r.bit == PAYLOAD_BITS then StopBit else DataBits
    case StopBit => if stopMid then Idle else StopBit
  }

  /** The device around the circuit: its clock pin and the queue of decoded bytes. */
  datatype Device = Device(n: nat, rx: Receiver, clock: bool, queue: seq<nat>)

  /** Each tick toggles the clock; a byte is queued while `done` is seen on a high clock. */
  function DeviceTick(d: Device, line: bool): Device
    requires |d.rx.data| == 8
  {
    var clock := !d.clock;
    var rx := if clock then Edge(d.n, d.rx, line) else d.rx;
    Device(d.n, rx, clock, if rx.done && clock then d.queue + [ByteOf(rx.data)] else d.queue)
  }

  class UartRtl {
    const clkPerBit: nat
    var ioClk: bool
    var sync0: bool
    var sync1: bool
    var fsmState: Phase
    var clkCounter: nat
    var bitCounter: nat
    var rxDoneFlag: bool
    const recvData: array<bool>
    var rx: seq<nat>

    ghost predicate Valid()
      reads this
    {
      recvData.Length == 8
    }

    ghost function State(): Device
      reads this, recvData
    {
      Device(clkPerBit, Receiver(sync0, sync1, fsmState, clkCounter, bitCounter, rxDoneFlag, recvData[..]), ioClk, rx)
    }

    constructor (clkPerBit: nat)
      ensures Valid() && fresh(recvData)
      ensures State() == Device(clkPerBit, RESET, false, [])
    {
      this.clkPerBit := clkPerBit;
      ioClk, sync0, sync1, fsmState := false, false, false, Idle;
      clkCounter, bitCounter, rxDoneFlag, rx := 0, 0, false, [];
      recvData := new bool[8](i => false);
    }

    /** The combinational block: the state to go to at the next edge. */
    method NextState(startMid: bool, stopMid: bool) returns (next: Phase)
      requires Valid()
      ensures next == NextPhase(State().rx, startMid, stopMid)
    {
      match fsmState
      case Idle => next := if !sync1 then StartBit else Idle;
      case StartBit =>
        next := StartBit;
        if startMid {
          next := if !sync1 then DataBits else Idle;
        }
      case DataBits => next := if bitCounter == PAYLOAD_BITS then StopBit else DataBits;
      case StopBit => next := if stopMid then Idle else StopBit;
    }

    /** The clock counter's block. */
    method NextClk(line: bool) returns (clk: nat)
      requires Valid()
      ensures clk == Edge(clkPerBit, State().rx, line).clk
    {
      hide NextPhase;
      match fsmState
      case Idle => clk := 0;
      case StartBit => clk := if clkCounter < clkPerBit / 2 then clkCounter + 1 else 0;
      case _ => clk := if clkCounter < clkPerBit then clkCounter + 1 else 0;
    }

    /** The bit counter's block. */
    method NextBit(dataMid: bool, line: bool) returns (bit: nat)
      requires Valid() && dataMid == (fsmState == DataBits && clkCounter == clkPerBit)
      ensures bit == Edge(clkPerBit, State().rx, line).bit
    {
      hide NextPhase;
      bit := bitCounter;
      if fsmState == Idle {
        bit := 0;
      } else if dataMid {
        bit := if bitCounter < PAYLOAD_BITS then bitCounter + 1 else 0;
      }
    }

    /** The data register's block. */
    method Sample(dataMid: bool)
      requires Valid()
      modifies recvData
      ensures recvData[..] == if dataMid then old(recvData[..])[bitCounter % 8 := sync1] else old(recvData[..])
    {
      if dataMid {
        recvData[bitCounter % 8] := sync1;
      }
    }

    /** All clocked blocks read the registers as they were before the edge. */
    method PosEdge(line: bool)
      requires Valid()
      modifies this`sync0, this`sync1, this`fsmState, this`clkCounter, this`bitCounter, this`rxDoneFlag, recvData
      ensures State() == old(State()).(rx := Edge(clkPerBit, old(State().rx), line))
    {
      hide NextPhase;
      var startMid := fsmState == StartBit && clkCounter == clkPerBit / 2;
      var dataMid := fsmState == DataBits && clkCounter == clkPerBit;
      var stopMid := fsmState == StopBit && clkCounter == clkPerBit;
      var next := NextState(startMid, stopMid);
      var clk := NextClk(line);
      var bit := NextBit(dataMid, line);
      Sample(dataMid);
      fsmState, clkCounter, bitCounter, rxDoneFlag := next, clk, bit, stopMid;
      sync0, sync1 := line, sync0;
    }

    method Tick(line: bool)
      requires Valid()
      modifies this, recvData
      ensures Valid() && State() == DeviceTick(old(State()), line)
    {
      ioClk := !ioClk;
      if ioClk {
        PosEdge(line);
      }
      if rxDoneFlag && ioClk {
        rx := rx + [ByteOf(recvData[..])];
      }
    }
  }
}
