/**
 * The packet codec of the debugger stub: framing with a checksum, unframing from a byte stream,
 * and the hexadecimal texts that carry registers.
 */
module Gdb {
  import opened Words

  /** A C++ char, which is signed. */
  type Char = c: int | -128 <= c < 128

  const BEGIN: Char := 0x24  // '$'
  const END: Char := 0x23    // '#'
  const BUFFER_SIZE := 8192

  /** What getc leaves in a char at the end of the stream. */
  const EOF: Char := -1

  // ----- Hexadecimal digits

  predicate IsHex(c: Char) {
    0x30 <= c <= 0x39 || 0x41 <= c <= 0x46 || 0x61 <= c <= 0x66
  }

  predicate AllHex(text: seq<Char>) {
    forall i :: 0 <= i < |text| ==> IsHex(text[i])
  }

  function HexValue(c: Char): nat
    requires IsHex(c)
  {
    if c <= 0x39 then c - 0x30 else if c <= 0x46 then c - 0x41 + 10 else c - 0x61 + 10
  }

  /** The digit printed, in lower case. */
  function HexDigit(x: nat): (c: Char)
    requires x < 16
    ensures IsHex(c) && HexValue(c) == x
  {
    if x < 10 then 0x30 + x else 0x61 + x - 10
  }

  /** Two digits, the upper half first. */
  function Hex2(b: byte): seq<Char> {
    [HexDigit(b / 16), HexDigit(b % 16)]
  }

  function Value2(high: Char, low: Char): byte
    requires IsHex(high) && IsHex(low)
  {
    HexValue(high) * 16 + HexValue(low)
  }

  function Dump(bytes: seq<byte>): (text: seq<Char>)
    ensures |text| == 2 * |bytes| && AllHex(text)
  {
    if bytes == [] then [] else Hex2(bytes[0]) + Dump(bytes[1..])
  }

  function ParseBytes(text: seq<Char>): (bytes: seq<byte>)
    requires AllHex(text) && |text| % 2 == 0
    ensures |bytes| == |text| / 2
  {
    if text == [] then [] else [Value2(text[0], text[1])] + ParseBytes(text[2..])
  }

  lemma ParseNext(text: seq<Char>, i: nat)
    requires AllHex(text) && |text| % 2 == 0 && 2 * i + 1 < |text|
    ensures ParseBytes(text[2 * i..]) == [Value2(text[2 * i], text[2 * i + 1])] + ParseBytes(text[2 * (i + 1)..])
  {
    hide Value2;
    assert text[2 * i..][2..] == text[2 * (i + 1)..];
  }

  /** Parsing undoes dumping. */
  lemma {:induction false} ParseDump(bytes: seq<byte>)
    ensures ParseBytes(Dump(bytes)) == bytes
  {
    if bytes != [] {
      ParseDump(bytes[1..]);
      assert Dump(bytes)[2..] == Dump(bytes[1..]);
    }
  }

  function Lower(text: seq<Char>): seq<Char> {
    seq(|text|, i requires 0 <= i < |text| => if 0x41 <= text[i] <= 0x46 then text[i] + 0x20 else text[i])
  }

  /** Dumping undoes parsing, but for the case of the letters. */
  lemma {:induction false} DumpParse(text: seq<Char>)
    requires AllHex(text) && |text| % 2 == 0
    ensures Dump(ParseBytes(text)) == Lower(text)
  {
    hide Value2, Hex2, HexDigit, HexValue;
    if text != [] {
      DumpParse(text[2..]);
      LowerPair(text[0], text[1]);
      LowerSplits(text);
    }
  }

  lemma LowerSplits(text: seq<Char>)
    requires |text| >= 2
    ensures Lower(text) == Lower([text[0], text[1]]) + Lower(text[2..])
  {
  }

  lemma LowerPair(high: Char, low: Char)
    requires IsHex(high) && IsHex(low)
    ensures Hex2(Value2(high, low)) == Lower([high, low])
  {
  }

  // ----- Frames

  function Sum(data: seq<Char>): int {
    if data == [] then 0 else Sum(data[..|data| - 1]) + data[|data| - 1]
  }

  function Checksum(data: seq<Char>): byte {
    Sum(data) % 256
  }

  function Frame(data: seq<Char>): seq<Char> {
    [BEGIN] + data + [END] + Hex2(Checksum(data))
  }

  /** The char at a place of the stream. */
  function Getc(stream: seq<Char>, i: nat): Char {
    if i < |stream| then stream[i] else EOF
  }

  /** First place from `i` on, and below the limit, that holds the end of a packet. */
  function FindEnd(stream: seq<Char>, i: nat): (end: nat)
    requires i <= BUFFER_SIZE
    ensures i <= end <= BUFFER_SIZE
    ensures end < BUFFER_SIZE ==> Getc(stream, end) == END
    ensures forall j :: i <= j < end ==> Getc(stream, j) != END
    decreases BUFFER_SIZE - i
  {
    if i == BUFFER_SIZE || Getc(stream, i) == END then i else FindEnd(stream, i + 1)
  }

  /** The place after the last beginning of a packet below `i`, or -1. */
  function LastBegin(stream: seq<Char>, i: nat): (begin: int)
    ensures -1 <= begin <= i
  {
    if i == 0 then -1
    else if Getc(stream, i - 1) == BEGIN then i
    else LastBegin(stream, i - 1)
  }

  datatype Received =
    | TooLong          // the emulator exits
    | ProtocolError
    | ChecksumError
    | Packet(data: seq<Char>)

  /** The checksum received; `other` is what a text that is not two digits leaves behind. */
  function ReceivedSum(high: Char, low: Char, other: byte): byte {
    if IsHex(high) && IsHex(low) then Value2(high, low) else other
  }

  function Slice(stream: seq<Char>, from: nat, to: nat): (s: seq<Char>)
    requires from <= to
    ensures |s| == to - from
  {
    seq<Char>(to - from, i requires 0 <= i < to - from => Getc(stream, from + i))
  }

  function Receive(stream: seq<Char>, other: byte): Received {
    var end := FindEnd(stream, 0);
    if end == BUFFER_SIZE then TooLong else
    var begin := LastBegin(stream, end);
    if begin == -1 then ProtocolError else
    var data := Slice(stream, begin, end);
    if ReceivedSum(Getc(stream, end + 1), Getc(stream, end + 2), other) != Checksum(data) then ChecksumError
    else Packet(data)
  }

  // ----- Round trip

  lemma {:induction false} EndIsAt(stream: seq<Char>, i: nat, end: nat)
    requires i <= end < BUFFER_SIZE && Getc(stream, end) == END
    requires forall j :: i <= j < end ==> Getc(stream, j) != END
    ensures FindEnd(stream, i) == end
    decreases end - i
  {
    if i < end {
      EndIsAt(stream, i + 1, end);
    }
  }

  lemma {:induction false} BeginIsAt(stream: seq<Char>, begin: nat, i: nat)
    requires 1 <= begin <= i && Getc(stream, begin - 1) == BEGIN
    requires forall j :: begin <= j < i ==> Getc(stream, j) != BEGIN
    ensures LastBegin(stream, i) == begin
    decreases i
  {
    if begin < i {
      BeginIsAt(stream, begin, i - 1);
    }
  }

  /** Where the pieces of a framed packet are in a stream. */
  lemma FrameAt(prefix: seq<Char>, data: seq<Char>, rest: seq<Char>)
    ensures var stream := prefix + Frame(data) + rest;
            var end := |prefix| + 1 + |data|;
            && (forall j :: 0 <= j < |prefix| ==> Getc(stream, j) == prefix[j])
            && Getc(stream, |prefix|) == BEGIN
            && (forall j :: 0 <= j < |data| ==> Getc(stream, |prefix| + 1 + j) == data[j])
            && Getc(stream, end) == END
            && [Getc(stream, end + 1), Getc(stream, end + 2)] == Hex2(Checksum(data))
  {
    hide Checksum, HexDigit;
    var frame := Frame(data);
    assert frame[0] == BEGIN && frame[1 + |data|] == END;
    assert [frame[|data| + 2], frame[|data| + 3]] == Hex2(Checksum(data));
  }

  lemma Value2OfHex2(b: byte)
    ensures Value2(Hex2(b)[0], Hex2(b)[1]) == b
  {
  }

  /**
   * A framed packet without delimiters in it, after any prefix without an end of packet, is
   * received with its checksum accepted, if it fits in the buffer; otherwise it is too long.
   */
  lemma FrameRoundTrip(prefix: seq<Char>, data: seq<Char>, rest: seq<Char>, other: byte)
    requires END !in prefix && END !in data && BEGIN !in data
    ensures Receive(prefix + Frame(data) + rest, other) ==
            if |prefix| + |data| + 2 <= BUFFER_SIZE then Packet(data) else TooLong
  {
    hide Checksum, Hex2, Frame, Value2, IsHex, FindEnd, LastBegin;
    var stream := prefix + Frame(data) + rest;
    var end := |prefix| + 1 + |data|;
    FrameAt(prefix, data, rest);
    forall j | 0 <= j < end ensures Getc(stream, j) != END {
      if j > |prefix| {
        assert Getc(stream, |prefix| + 1 + (j - |prefix| - 1)) == data[j - |prefix| - 1];
      }
    }
    if end < BUFFER_SIZE {
      EndIsAt(stream, 0, end);
      forall j | |prefix| + 1 <= j < end ensures Getc(stream, j) != BEGIN {
        assert Getc(stream, |prefix| + 1 + (j - |prefix| - 1)) == data[j - |prefix| - 1];
      }
      BeginIsAt(stream, |prefix| + 1, end);
      assert Slice(stream, |prefix| + 1, end) == data;
      Value2OfHex2(Checksum(data));
      HexDigits(Checksum(data));
    }
  }

  lemma HexDigits(b: byte)
    ensures IsHex(Hex2(b)[0]) && IsHex(Hex2(b)[1])
  {
  }

  lemma ReceivedHasNoDelimiter(stream: seq<Char>, other: byte)
    ensures var r := Receive(stream, other); r.Packet? ==> BEGIN !in r.data && END !in r.data
  {
    var end := FindEnd(stream, 0);
    if end < BUFFER_SIZE && LastBegin(stream, end) != -1 {
      NoBeginAfterLast(stream, end);
    }
  }

  lemma {:induction false} NoBeginAfterLast(stream: seq<Char>, i: nat)
    ensures forall j :: 0 <= LastBegin(stream, i) <= j < i ==> Getc(stream, j) != BEGIN
  {
    if i > 0 {
      NoBeginAfterLast(stream, i - 1);
    }
  }

  /** A payload survives its framing exactly when it has no delimiter in it and fits in the buffer. */
  lemma SurvivesExactly(prefix: seq<Char>, data: seq<Char>, rest: seq<Char>, other: byte)
    requires END !in prefix
    ensures Receive(prefix + Frame(data) + rest, other) == Packet(data) <==>
            BEGIN !in data && END !in data && |prefix| + |data| + 2 <= BUFFER_SIZE
  {
    hide Frame, Receive;
    ReceivedHasNoDelimiter(prefix + Frame(data) + rest, other);
    if BEGIN !in data && END !in data {
      FrameRoundTrip(prefix, data, rest, other);
    }
  }

  // ----- Parameters

  /** The hexadecimal runs of a packet, in order, each as long as it can be. */
  function HexRuns(text: seq<Char>): (runs: seq<seq<Char>>)
    ensures forall i :: 0 <= i < |runs| ==> AllHex(runs[i])
    decreases |text|
  {
    if text == [] then []
    else if !IsHex(text[0]) then HexRuns(text[1..])
    else
      var n := RunLength(text);
      [text[..n]] + HexRuns(text[n..])
  }

  /** Number of digits the text starts with. */
  function RunLength(text: seq<Char>): (n: nat)
    ensures n <= |text| && AllHex(text[..n]) && (n < |text| ==> !IsHex(text[n]))
    ensures text != [] && IsHex(text[0]) ==> n > 0
  {
    if text == [] || !IsHex(text[0]) then 0
    else
      var n := RunLength(text[1..]) + 1;
      assert text[..n] == [text[0]] + text[1..][..n - 1];
      n
  }

  lemma {:induction false} WholeRun(text: seq<Char>)
    requires AllHex(text)
    ensures RunLength(text) == |text|
  {
    if text != [] {
      WholeRun(text[1..]);
    }
  }

  const WRITE_REGISTERS: Char := 0x47  // 'G'

  /** The parameter of a command letter that is no digit, followed by digits, is those digits. */
  lemma OneRun(command: Char, text: seq<Char>)
    requires !IsHex(command) && AllHex(text) && text != []
    ensures HexRuns([command] + text) == [text]
  {
    assert ([command] + text)[1..] == text;
    WholeRun(text);
    assert text[..|text|] == text && text[|text|..] == [];
    assert HexRuns(text) == [text] + HexRuns([]);
  }

  // ----- Registers

  const REGISTERS := 33

  /** The reply to a request for all registers: x0 to x31 and the program counter. */
  function RegisterBytes(regs: seq<u64>): seq<byte> {
    if regs == [] then [] else ToBytes(regs[0], 8) + RegisterBytes(regs[1..])
  }

  function ReadAll(regs: seq<u64>): seq<Char> {
    Dump(RegisterBytes(regs))
  }

  function Registers(bytes: seq<byte>): seq<u64>
    requires |bytes| % 8 == 0
  {
    if bytes == [] then [] else [Wrap64(FromBytes(bytes[..8]))] + Registers(bytes[8..])
  }

  datatype Reply = Silent | Empty | Failed

  /** The reply to a write of all registers, and the registers afterwards. */
  function WriteAll(regs: seq<u64>, params: seq<seq<Char>>): (Reply, seq<u64>)
    requires forall i :: 0 <= i < |params| ==> AllHex(params[i])
  {
    if |params| != 1 || |params[0]| % 16 != 0 then (Empty, regs)
    else
      var values := Registers(ParseBytes(params[0]));
      if |values| != REGISTERS then (Failed, regs) else (Silent, values)
  }

  lemma {:induction false} RegistersRoundTrip(regs: seq<u64>)
    ensures |RegisterBytes(regs)| == 8 * |regs| && Registers(RegisterBytes(regs)) == regs
  {
    hide ToBytes, FromBytes;
    if regs != [] {
      RegistersRoundTrip(regs[1..]);
      EightBytes(regs[0]);
      FirstRegister(ToBytes(regs[0], 8), RegisterBytes(regs[1..]), regs[0]);
    }
  }

  lemma RegistersOf(bytes: seq<byte>)
    requires |bytes| % 8 == 0 && bytes != []
    ensures Registers(bytes) == [Wrap64(FromBytes(bytes[..8]))] + Registers(bytes[8..])
  {
    hide FromBytes;
  }

  lemma FirstRegister(first: seq<byte>, others: seq<byte>, value: u64)
    requires |first| == 8 && |others| % 8 == 0 && FromBytes(first) == value
    ensures Registers(first + others) == [value] + Registers(others)
  {
    hide FromBytes, Registers;
    var all := first + others;
    assert all[..8] == first && all[8..] == others;
    RegistersOf(all);
  }

  lemma NotADelimiter(text: seq<Char>)
    requires AllHex(text)
    ensures BEGIN !in text && END !in text
  {
  }

  /**
   * From end to end: the reply to a request for all registers, sent back in a frame as a write of
   * all registers over whatever the registers have become, restores every register.
   */
  lemma ReadThenWriteRestores(regs: seq<u64>, changed: seq<u64>, prefix: seq<Char>, rest: seq<Char>, other: byte)
    requires |regs| == REGISTERS && END !in prefix && |prefix| <= BUFFER_SIZE - 531
    ensures var text := [WRITE_REGISTERS] + ReadAll(regs);
            && Receive(prefix + Frame(text) + rest, other) == Packet(text)
            && WriteAll(changed, HexRuns(text)) == (Silent, regs)
  {
    hide Frame, Receive, HexRuns, RegisterBytes, Registers;
    var text := [WRITE_REGISTERS] + ReadAll(regs);
    RegistersRoundTrip(regs);
    NotADelimiter(ReadAll(regs));
    FrameRoundTrip(prefix, text, rest, other);
    OneRun(WRITE_REGISTERS, ReadAll(regs));
    ParseDump(RegisterBytes(regs));
  }

  // ----- The stub

  class Stub {
    const buffer: array<Char>
    var packetBeginIndex: nat
    var packetSize: nat

    ghost predicate Valid()
      reads this, buffer
    {
      buffer.Length == BUFFER_SIZE && packetBeginIndex + packetSize <= BUFFER_SIZE
    }

    /** The packet kept from the last successful reception. */
    ghost function Kept(): seq<Char>
      reads this, buffer
      requires Valid()
    {
      buffer[packetBeginIndex..packetBeginIndex + packetSize]
    }

    constructor ()
      ensures Valid() && fresh(buffer) && Kept() == []
    {
      buffer := new Char[BUFFER_SIZE](_ => 0);
      packetBeginIndex, packetSize := 0, 0;
    }

    /** The emulator's sum wraps at 64 bits, which does not change it modulo 256. */
    static method CalCheckSum(data: array<Char>, from: nat, len: nat) returns (checksum: byte)
      requires from + len <= data.Length
      ensures checksum == Checksum(data[from..from + len])
    {
      var sum: int := 0;
      var i := 0;
      while i < len
        invariant 0 <= i <= len && sum == Sum(data[from..from + i])
      {
        sum := sum + data[from + i];
        i := i + 1;
        assert data[from..from + i][..i - 1] == data[from..from + i - 1];
      }
      checksum := sum % 256;
    }

    /** Fills the buffer up to the end of a packet, noting where the packet begins. */
    method Fill(stream: seq<Char>) returns (end: nat, begin: int)
      requires Valid()
      modifies buffer
      ensures end == FindEnd(stream, 0)
      ensures end < BUFFER_SIZE ==> begin == LastBegin(stream, end)
      ensures forall j :: 0 <= j < end ==> buffer[j] == Getc(stream, j)
    {
      begin := -1;
      end := 0;
      while end < BUFFER_SIZE
        invariant 0 <= end <= BUFFER_SIZE
        invariant begin == LastBegin(stream, end) && FindEnd(stream, 0) == FindEnd(stream, end)
        invariant forall j :: 0 <= j < end ==> buffer[j] == Getc(stream, j)
      {
        var ch := Getc(stream, end);
        buffer[end] := ch;
        if ch == END {
          break;
        }
        end := end + 1;
        if ch == BEGIN {
          begin := end;
        }
      }
    }

    /** Reads a packet and checks it; one that is accepted is kept. */
    method RecvAndCheck(stream: seq<Char>, other: byte) returns (received: Received)
      requires Valid()
      modifies this, buffer
      ensures received == Receive(stream, other)
      ensures received.Packet? ==> Valid() && Kept() == received.data
    {
      hide Checksum, ReceivedSum, FindEnd, LastBegin;
      var end, begin := Fill(stream);
      if end == BUFFER_SIZE {
        return TooLong;
      }
      if begin == -1 {
        return ProtocolError;
      }
      var checksum := CalCheckSum(buffer, begin, end - begin);
      assert buffer[begin..begin + (end - begin)] == Slice(stream, begin, end);
      if ReceivedSum(Getc(stream, end + 1), Getc(stream, end + 2), other) != checksum {
        return ChecksumError;
      }
      packetBeginIndex, packetSize := begin, end - begin;
      received := Packet(buffer[begin..end]);
    }

    /** The bytes written for a payload. */
    static method Pack(payload: array<Char>) returns (sent: array<Char>)
      ensures fresh(sent) && sent[..] == Frame(payload[..])
    {
      var len := payload.Length;
      sent := new Char[len + 4](_ => 0);
      var i := 0;
      while i < len
        invariant 0 <= i <= len && sent.Length == len + 4
        invariant forall j :: 0 <= j < i ==> sent[j + 1] == payload[j]
      {
        sent[i + 1] := payload[i];
        i := i + 1;
      }
      sent[0], sent[len + 1] := BEGIN, END;
      var checksum := CalCheckSum(payload, 0, len);
      assert payload[0..0 + len] == payload[..];
      sent[len + 2], sent[len + 3] := HexDigit(checksum / 16), HexDigit(checksum % 16);
      assert sent[1..len + 1] == payload[..];
      assert sent[..] == [sent[0]] + sent[1..len + 1] + [sent[len + 1]] + [sent[len + 2], sent[len + 3]];
    }

    static method ParseByteStream(text: seq<Char>) returns (bytes: array<byte>)
      requires AllHex(text) && |text| % 2 == 0
      ensures fresh(bytes) && bytes[..] == ParseBytes(text)
    {
      hide ParseBytes, Value2;
      bytes := new byte[|text| / 2](_ => 0);
      var i := 0;
      while i < |text| / 2
        invariant 0 <= i <= |text| / 2 == bytes.Length
        invariant ParseBytes(text) == bytes[..i] + ParseBytes(text[2 * i..])
      {
        var value := Value2(text[2 * i], text[2 * i + 1]);
        bytes[i] := value;
        ParseNext(text, i);
        assert bytes[..i + 1] == bytes[..i] + [value];
        i := i + 1;
      }
      assert bytes[..i] == bytes[..];
    }
  }
}
