/**
 * Load-reserved and store-conditional over the shared bus (section 8.2 of the Unprivileged
 * ISA).  Harts are interleaved one physical access at a time; all share one reservation.
 */
module LrSc {
  import opened Words
  import opened Bus
  import opened Sv39

  /** One access of one hart that has reached the bus. */
  datatype Event = Event(ctx: Context, access: Access, pa: u64)

  function After(b: BusState, e: Event): BusState {
    Sv39.Perform(b, e.ctx, e.access, e.pa, true).0
  }

  function RunBus(b: BusState, es: seq<Event>): BusState
    decreases |es|
  {
    if es == [] then b else RunBus(After(b, es[0]), es[1..])
  }

  predicate Stores(a: Access) {
    a.Write? || a.StoreConditional? || a.Amo?
  }

  predicate Disjoint(addr: u64, len: nat, pa: u64, n: nat) {
    addr + len <= pa || pa + n <= addr
  }

  /** The second range lies within the first. */
  predicate Contains(addr: u64, len: nat, pa: u64, n: nat) {
    addr <= pa && pa + n <= addr + len
  }

  /** Memory, and every range of it, ends below the top of the address space. */
  predicate Fits(b: BusState) {
    b.base + |b.mem| < TWO_TO_THE_64
  }

  // ----- One store

  lemma LoadAt(b: BusState, addr: u64, len: nat)
    requires InMemory(b, addr, len)
    ensures Load(b, addr, len).Some? && |Load(b, addr, len).value| == len
    ensures forall i :: 0 <= i < len ==> Load(b, addr, len).value[i] == b.mem[addr - b.base + i]
  {
  }

  lemma StoreFrame(b: BusState, addr: u64, bytes: seq<byte>, pa: u64, n: nat)
    requires InMemory(b, pa, n) && Disjoint(addr, |bytes|, pa, n)
    ensures var b' := Store(b, addr, bytes).0;
            InMemory(b', pa, n) && Load(b', pa, n) == Load(b, pa, n) && Fits(b') == Fits(b)
  {
    var b' := Store(b, addr, bytes).0;
    LoadAt(b, pa, n);
    LoadAt(b', pa, n);
    assert Load(b', pa, n).value == Load(b, pa, n).value;
  }

  lemma StoreShape(b: BusState, addr: u64, bytes: seq<byte>)
    ensures var b' := Store(b, addr, bytes).0;
            b'.base == b.base && |b'.mem| == |b.mem| && b'.res == Kill(b.res, addr, |bytes|)
  {
  }

  lemma StoreWrites(b: BusState, addr: u64, bytes: seq<byte>)
    requires InMemory(b, addr, |bytes|)
    ensures Store(b, addr, bytes).1 && Load(Store(b, addr, bytes).0, addr, |bytes|) == Some(bytes)
  {
    var b' := Store(b, addr, bytes).0;
    LoadAt(b', addr, |bytes|);
    assert Load(b', addr, |bytes|).value == bytes;
  }

  /** A store that contains the reserved range gives the reservation up, whether or not it succeeds. */
  lemma ContainingKills(b: BusState, addr: u64, bytes: seq<byte>)
    requires b.res.valid && Contains(addr, |bytes|, b.res.addr, b.res.len) && addr + |bytes| < TWO_TO_THE_64
    ensures !Store(b, addr, bytes).0.res.valid
  {
  }

  /** Every byte of a range after a store. */
  lemma StoredBytes(b: BusState, addr: u64, bytes: seq<byte>, pa: u64, n: nat)
    requires InMemory(b, pa, n) && InMemory(b, addr, |bytes|)
    ensures var b' := Store(b, addr, bytes).0;
            && Load(b, pa, n).Some? && Load(b', pa, n).Some?
            && |Load(b, pa, n).value| == |Load(b', pa, n).value| == n
            && (forall j :: 0 <= j < n ==> Load(b, pa, n).value[j] == b.mem[pa + j - b.base])
            && forall j :: 0 <= j < n ==>
                 (Load(b', pa, n).value[j] ==
                  if addr <= pa + j < addr + |bytes| then bytes[pa + j - addr] else b.mem[pa + j - b.base])
  {
    LoadAt(b, pa, n);
    LoadAt(Store(b, addr, bytes).0, pa, n);
  }

  lemma KeepsReservation(b: BusState, addr: u64, bytes: seq<byte>)
    requires Fits(b) && b.res.valid && InMemory(b, b.res.addr, b.res.len) && InMemory(b, addr, |bytes|)
    ensures Store(b, addr, bytes).0.res == b.res <==> !Contains(addr, |bytes|, b.res.addr, b.res.len)
  {
  }

  /**
   * What a single store does to a reservation on memory: the bytes change under a reservation
   * that stays valid exactly when the store overlaps the reserved range without containing it
   * and writes a different value to a byte that both share.
   */
  lemma ReservationBrokenExactly(b: BusState, addr: u64, bytes: seq<byte>)
    requires Fits(b) && b.res.valid && InMemory(b, b.res.addr, b.res.len) && InMemory(b, addr, |bytes|)
    ensures var b' := Store(b, addr, bytes).0;
            (b'.res == b.res && Load(b', b.res.addr, b.res.len) != Load(b, b.res.addr, b.res.len))
            <==> !Contains(addr, |bytes|, b.res.addr, b.res.len) &&
                 exists i :: 0 <= i < |bytes| && b.res.addr <= addr + i < b.res.addr + b.res.len &&
                             bytes[i] != b.mem[addr + i - b.base]
  {
    hide Store, Load, Contains;
    var b' := Store(b, addr, bytes).0;
    var pa, n := b.res.addr, b.res.len;
    KeepsReservation(b, addr, bytes);
    StoredBytes(b, addr, bytes, pa, n);
    var before, after := Load(b, pa, n).value, Load(b', pa, n).value;
    if after != before {
      var j :| 0 <= j < n && after[j] != before[j];
      assert bytes[pa + j - addr] != b.mem[addr + (pa + j - addr) - b.base];
    }
    if i :| 0 <= i < |bytes| && pa <= addr + i < pa + n && bytes[i] != b.mem[addr + i - b.base] {
      assert after[addr + i - pa] != before[addr + i - pa];
    }
  }

  // ----- Runs that are well behaved towards one range

  /** Every store is disjoint from the range or contains it. */
  predicate Tame(e: Event, pa: u64, n: nat) {
    Stores(e.access) ==>
      var len := Length(e.access);
      e.pa + len < TWO_TO_THE_64 && (Disjoint(e.pa, len, pa, n) || Contains(e.pa, len, pa, n))
  }

  predicate Reserves(e: Event, pa: u64, n: nat, hart: nat) {
    e.access.LoadReserved? && e.pa == pa && e.access.len == n && e.ctx.hart == hart
  }

  /** The hart holds the reservation of the range. */
  predicate Holds(b: BusState, pa: u64, n: nat, hart: nat) {
    b.res == Reservation(true, hart, pa, n)
  }

  lemma TameStore(b: BusState, addr: u64, bytes: seq<byte>, pa: u64, n: nat, hart: nat)
    requires Fits(b) && InMemory(b, pa, n) && addr + |bytes| < TWO_TO_THE_64
    requires Disjoint(addr, |bytes|, pa, n) || Contains(addr, |bytes|, pa, n)
    ensures var b' := Store(b, addr, bytes).0;
            && Fits(b') && InMemory(b', pa, n)
            && (Holds(b', pa, n, hart) ==> Holds(b, pa, n, hart) && Load(b', pa, n) == Load(b, pa, n))
  {
    hide Load;
    StoreShape(b, addr, bytes);
    if Disjoint(addr, |bytes|, pa, n) {
      StoreFrame(b, addr, bytes, pa, n);
    } else if Holds(b, pa, n, hart) {
      ContainingKills(b, addr, bytes);
    }
  }

  lemma TameStep(b: BusState, e: Event, pa: u64, n: nat, hart: nat)
    requires Fits(b) && InMemory(b, pa, n) && Tame(e, pa, n) && !Reserves(e, pa, n, hart)
    ensures var b' := After(b, e);
            && Fits(b') && InMemory(b', pa, n)
            && (Holds(b', pa, n, hart) ==> Holds(b, pa, n, hart) && Load(b', pa, n) == Load(b, pa, n))
  {
    hide Load, Store, ToBytes, AmoResult, AmoOld, Disjoint, Contains;
    match e.access
    case Write(bytes) => TameStore(b, e.pa, bytes, pa, n, hart);
    case StoreConditional(bytes) =>
      var checked := Check(b, e.pa, |bytes|, e.ctx.hart);
      if checked.1 {
        TameStore(checked.0, e.pa, bytes, pa, n, hart);
      }
    case Amo(len, op, src) =>
      var data := Load(b, e.pa, len);
      if data.Some? {
        TameStore(b, e.pa, ToBytes(AmoResult(op, src, AmoOld(len, data.value)), len), pa, n, hart);
      }
    case _ =>
  }

  ghost predicate TameRun(es: seq<Event>, pa: u64, n: nat, hart: nat) {
    forall i :: 0 <= i < |es| ==> Tame(es[i], pa, n) && !Reserves(es[i], pa, n, hart)
  }

  lemma {:induction false} HeldIsUnchanged(b: BusState, es: seq<Event>, pa: u64, n: nat, hart: nat)
    requires Fits(b) && InMemory(b, pa, n) && TameRun(es, pa, n, hart)
    ensures var b' := RunBus(b, es);
            Holds(b', pa, n, hart) ==> Holds(b, pa, n, hart) && Load(b', pa, n) == Load(b, pa, n)
    decreases |es|
  {
    hide Load, After, Tame, Reserves;
    if es != [] {
      TameStep(b, es[0], pa, n, hart);
      HeldIsUnchanged(After(b, es[0]), es[1..], pa, n, hart);
    }
  }

  function LoadReservedAt(ctx: Context, pa: u64, n: nat): Event {
    Event(ctx, LoadReserved(n), pa)
  }

  /**
   * Between a load-reserved and a store-conditional of the same range that succeeds, whatever all
   * harts did, the bytes of the range did not change.
   */
  lemma SuccessMeansUnchanged(b: BusState, ctx: Context, pa: u64, es: seq<Event>, bytes: seq<byte>)
    requires Fits(b) && InMemory(b, pa, |bytes|) && TameRun(es, pa, |bytes|, ctx.hart)
    ensures var reserved := After(b, LoadReservedAt(ctx, pa, |bytes|));
            var before := RunBus(reserved, es);
            var reply := Sv39.Perform(before, ctx, StoreConditional(bytes), pa, true).1;
            reply == Conditional(false) ==> Load(before, pa, |bytes|) == Load(b, pa, |bytes|)
  {
    hide RunBus;
    var reserved := After(b, LoadReservedAt(ctx, pa, |bytes|));
    HeldIsUnchanged(reserved, es, pa, |bytes|, ctx.hart);
  }

  /** A store to half of a reserved double word goes unnoticed: the condition on stores is needed. */
  lemma PartialStoreUnnoticed(ctx: Context, zeros: seq<byte>)
    requires zeros == [0, 0, 0, 0, 0, 0, 0, 0]
    ensures var b := BusState(zeros, 0, Reservation(false, 0, 0, 0));
            var reserved := After(b, LoadReservedAt(ctx, 0, 8));
            var before := After(reserved, Event(ctx, Write([1, 0, 0, 0]), 0));
            && Load(before, 0, 8) != Load(b, 0, 8)
            && Sv39.Perform(before, ctx, StoreConditional(zeros), 0, true).1 == Conditional(false)
  {
    hide Load, Overwrite;
    var b := BusState(zeros, 0, Reservation(false, 0, 0, 0));
    var reserved := After(b, LoadReservedAt(ctx, 0, 8));
    StoredBytes(reserved, 0, [1, 0, 0, 0], 0, 8);
    LoadAt(b, 0, 8);
    StoreShape(reserved, 0, [1, 0, 0, 0]);
    var before := After(reserved, Event(ctx, Write([1, 0, 0, 0]), 0));
    assert Load(before, 0, 8).value[0] == 1 && Load(b, 0, 8).value[0] == 0;
  }

  // ----- Minimum and maximum of words

  /** Does the low word of the operand compare with the old value as the whole register does? */
  predicate ComparesAsWord(op: AmoOp, src: u64, prior: u64) {
    var word := Wrap64(Signed32(src));
    if op.Min? || op.Max?
    then (Signed64(src) < Signed64(prior)) == (Signed64(word) < Signed64(prior))
         && (Signed64(prior) < Signed64(src)) == (Signed64(prior) < Signed64(word))
    else (src < prior) == (word < prior) && (prior < src) == (prior < word)
  }

  /** A memory word, as the operation reads it. */
  predicate IsWord(prior: u64) {
    prior == Wrap64(Signed32(prior))
  }

  /** Does the emulator store what the operation on words stores? */
  predicate StoresRight(op: AmoOp, src: u64, prior: u64) {
    AmoResult(op, src, prior) % TWO_TO_THE_32 == AmoResult(op, Wrap64(Signed32(src)), prior) % TWO_TO_THE_32
  }

  /**
   * The emulator compares the whole of rs2: a word-sized minimum or maximum stores what the
   * operation on words stores exactly when the comparison comes out the same for the word in
   * rs2, or both words are equal.
   */
  lemma WordMinMaxExactly(op: AmoOp, src: u64, prior: u64)
    requires op.Min? || op.Max? || op.MinU? || op.MaxU?
    requires IsWord(prior)
    ensures StoresRight(op, src, prior) <==> ComparesAsWord(op, src, prior) || Wrap64(Signed32(src)) == prior
  {
    WordHasItsLow(src);
    WordHasItsLow(prior);
  }

  /**
   * The operands that are right for every memory word: those that are a sign-extended word, and
   * those that lie beyond all words but whose low word is the last on that side.
   */
  predicate RightOperand(op: AmoOp, src: u64) {
    var x, low := Signed64(src), Signed32(src);
    || x == low
    || (if op.Min? || op.Max? then
          (x >= TWO_TO_THE_31 && low == TWO_TO_THE_31 - 1) || (x < -TWO_TO_THE_31 && low == -TWO_TO_THE_31)
        else low == TWO_TO_THE_31 - 1 || low == -TWO_TO_THE_31)
  }

  /** The memory word for which a wrong operand is caught. */
  function WrongWord(op: AmoOp, src: u64): u64 {
    var x, low := Signed64(src), Signed32(src);
    Wrap64(if op.Min? || op.Max? then (if x >= TWO_TO_THE_31 then TWO_TO_THE_31 - 1 else -TWO_TO_THE_31)
           else if low >= 0 then TWO_TO_THE_31 - 1 else -TWO_TO_THE_31)
  }

  /**
   * A word-sized minimum or maximum is right for every memory word if and only if rs2 is such an
   * operand; for any other rs2 a word for which it is wrong can be named.
   */
  lemma WordMinMaxOperand(op: AmoOp, src: u64)
    requires op.Min? || op.Max? || op.MinU? || op.MaxU?
    ensures RightOperand(op, src) <==> forall prior: u64 :: IsWord(prior) ==> StoresRight(op, src, prior)
    ensures !RightOperand(op, src) ==> IsWord(WrongWord(op, src)) && !StoresRight(op, src, WrongWord(op, src))
  {
    hide RightOperand, StoresRight, WrongWord, ComparesAsWord, IsWord, AmoResult;
    if RightOperand(op, src) {
      forall prior: u64 | IsWord(prior)
        ensures StoresRight(op, src, prior)
      {
        RightCompares(op, src, prior);
        WordMinMaxExactly(op, src, prior);
      }
    } else {
      WrongCompares(op, src);
      WordMinMaxExactly(op, src, WrongWord(op, src));
    }
  }

  lemma RightCompares(op: AmoOp, src: u64, prior: u64)
    requires RightOperand(op, src) && IsWord(prior)
    ensures ComparesAsWord(op, src, prior) || Wrap64(Signed32(src)) == prior
  {
    WordRange(src);
    WordRange(prior);
  }

  lemma WrongCompares(op: AmoOp, src: u64)
    requires !RightOperand(op, src)
    ensures var prior := WrongWord(op, src);
            IsWord(prior) && !ComparesAsWord(op, src, prior) && Wrap64(Signed32(src)) != prior
  {
    hide RightOperand, WrongWord, ComparesAsWord;
    if op.Min? || op.Max? {
      WrongSigned(op, src);
    } else {
      WrongUnsigned(op, src);
    }
  }

  lemma WrongSigned(op: AmoOp, src: u64)
    requires (op.Min? || op.Max?) && !RightOperand(op, src)
    ensures var prior := WrongWord(op, src);
            IsWord(prior) && !ComparesAsWord(op, src, prior) && Wrap64(Signed32(src)) != prior
  {
    hide Signed64, Signed32, Wrap64, IsWord;
    WordRange(src);
    WordFacts(TWO_TO_THE_31 - 1);
    WordFacts(-TWO_TO_THE_31);
  }

  lemma WordFacts(x: int)
    requires -TWO_TO_THE_31 <= x < TWO_TO_THE_31
    ensures Signed64(Wrap64(x)) == x && IsWord(Wrap64(x))
  {
  }

  lemma WrongUnsigned(op: AmoOp, src: u64)
    requires !(op.Min? || op.Max?) && !RightOperand(op, src)
    ensures var prior := WrongWord(op, src);
            IsWord(prior) && !ComparesAsWord(op, src, prior) && Wrap64(Signed32(src)) != prior
  {
    WordRange(src);
  }

  lemma WordRange(x: u64)
    ensures -TWO_TO_THE_31 <= Signed32(x) < TWO_TO_THE_31 && Signed64(Wrap64(Signed32(x))) == Signed32(x)
    ensures x == Wrap64(Signed32(x)) <==> Signed64(x) == Signed32(x)
    ensures -TWO_TO_THE_31 <= Signed64(x) < TWO_TO_THE_31 ==> Signed64(x) == Signed32(x)
  {
  }

  /** For one: the minimum of 2^32 and the word 1 is stored as 1, though the word in rs2 is 0. */
  lemma WordMinWrong()
    ensures AmoResult(Min, 0x1_0000_0000, 1) % TWO_TO_THE_32 == 1
    ensures AmoResult(Min, Wrap64(Signed32(0x1_0000_0000)), 1) % TWO_TO_THE_32 == 0
  {
  }

  lemma WordHasItsLow(x: u64)
    ensures Wrap64(Signed32(x)) % TWO_TO_THE_32 == x % TWO_TO_THE_32
  {
  }

  // ----- A shared counter

  /** What a hart does next: one half of an increment, an atomic addition, or something elsewhere. */
  datatype Turn =
    | Reserve(ctx: Context)                 // reads the counter with a load-reserved
    | Increment(ctx: Context)               // store-conditional of the value read, plus one
    | AddAtomically(ctx: Context, src: u64)
    | Elsewhere(e: Event)

  /** The bus, the value each hart has read and not yet used, and the sum of all successful additions. */
  datatype Harts = Harts(bus: BusState, held: map<nat, u64>, added: nat)

  predicate Apart(e: Event, cell: u64) {
    && (Stores(e.access) ==> e.pa + Length(e.access) < TWO_TO_THE_64 && Disjoint(e.pa, Length(e.access), cell, 8))
    && !(e.access.LoadReserved? && e.pa == cell && e.access.len == 8)
  }

  function Take(h: Harts, cell: u64, t: Turn): Harts {
    match t
    case Reserve(ctx) =>
      var (b, reply) := Sv39.Perform(h.bus, ctx, LoadReserved(8), cell, true);
      if reply.Data? then Harts(b, h.held[ctx.hart := Wrap64(FromBytes(reply.value))], h.added) else h.(bus := b)
    case Increment(ctx) =>
      if ctx.hart !in h.held then h else
      var bytes := ToBytes(Wrap64(h.held[ctx.hart] as int + 1), 8);
      var (b, reply) := Sv39.Perform(h.bus, ctx, StoreConditional(bytes), cell, true);
      Harts(b, h.held - {ctx.hart}, if reply == Conditional(false) then h.added + 1 else h.added)
    case AddAtomically(ctx, src) =>
      var (b, reply) := Sv39.Perform(h.bus, ctx, Amo(8, Add, src), cell, true);
      Harts(b, h.held, if reply.Prior? then h.added + src else h.added)
    case Elsewhere(e) => h.(bus := After(h.bus, e))
  }

  function TakeAll(h: Harts, cell: u64, ts: seq<Turn>): Harts
    decreases |ts|
  {
    if ts == [] then h else TakeAll(Take(h, cell, ts[0]), cell, ts[1..])
  }

  function Cell(b: BusState, cell: u64): nat
    requires InMemory(b, cell, 8)
  {
    FromBytes(Load(b, cell, 8).value)
  }

  /** The counter has all additions, and a hart that holds its reservation has read its present value. */
  predicate Counts(h: Harts, cell: u64, initial: nat) {
    && Fits(h.bus) && InMemory(h.bus, cell, 8)
    && Cell(h.bus, cell) == Wrap64(initial + h.added)
    && (h.bus.res.valid && h.bus.res.addr == cell && h.bus.res.len == 8 ==>
          h.bus.res.hart in h.held && h.held[h.bus.res.hart] == Cell(h.bus, cell))
  }

  lemma ReserveCounts(h: Harts, cell: u64, ctx: Context, initial: nat)
    requires Counts(h, cell, initial)
    ensures Counts(Take(h, cell, Reserve(ctx)), cell, initial)
  {
    LoadAt(h.bus, cell, 8);
    var h' := Take(h, cell, Reserve(ctx));
    assert Load(h'.bus, cell, 8) == Load(h.bus, cell, 8);
  }

  lemma WrapStep(initial: nat, added: nat, src: nat)
    ensures Wrap64(Wrap64(initial + added) + src) == Wrap64(initial + (added + src))
    ensures Wrap64(src + Wrap64(initial + added)) == Wrap64(initial + (added + src))
  {
  }

  lemma IncrementCounts(h: Harts, cell: u64, ctx: Context, initial: nat)
    requires Counts(h, cell, initial)
    ensures Counts(Take(h, cell, Increment(ctx)), cell, initial)
  {
    hide Load, Store, FromBytes, ToBytes;
    if ctx.hart in h.held {
      var value := Wrap64(h.held[ctx.hart] as int + 1);
      var bytes := ToBytes(value, 8);
      var checked := Check(h.bus, cell, 8, ctx.hart);
      if checked.1 {
        EightBytes(value);
        StoreWrites(checked.0, cell, bytes);
        StoreShape(checked.0, cell, bytes);
        WrapStep(initial, h.added, 1);
      } else {
        LoadSame(h.bus, checked.0, cell, 8);
      }
    }
  }

  lemma LoadSame(b: BusState, b': BusState, addr: u64, len: nat)
    requires b'.mem == b.mem && b'.base == b.base
    ensures Load(b', addr, len) == Load(b, addr, len)
  {
  }

  lemma AddCounts(h: Harts, cell: u64, ctx: Context, src: u64, initial: nat)
    requires Counts(h, cell, initial)
    ensures Counts(Take(h, cell, AddAtomically(ctx, src)), cell, initial)
  {
    hide Load, Store, FromBytes, ToBytes;
    LoadAt(h.bus, cell, 8);
    var data := Load(h.bus, cell, 8).value;
    var prior := AmoOld(8, data);
    var bytes := ToBytes(AmoResult(Add, src, prior), 8);
    EightBytes(AmoResult(Add, src, prior));
    StoreWrites(h.bus, cell, bytes);
    StoreShape(h.bus, cell, bytes);
    WrapStep(initial, h.added, src);
    if h.bus.res.valid && h.bus.res.addr == cell && h.bus.res.len == 8 {
      ContainingKills(h.bus, cell, bytes);
    }
    WrapTwice(initial + h.added);
  }

  lemma WrapTwice(x: nat)
    ensures Wrap64(Wrap64(x)) == Wrap64(x)
  {
  }

  lemma ApartCounts(h: Harts, cell: u64, e: Event, initial: nat)
    requires Counts(h, cell, initial) && Apart(e, cell)
    ensures Counts(Take(h, cell, Elsewhere(e)), cell, initial)
  {
    hide Load, Store, FromBytes, ToBytes, AmoResult, AmoOld;
    match e.access
    case Write(bytes) => ApartStore(h.bus, e.pa, bytes, cell);
    case StoreConditional(bytes) =>
      var checked := Check(h.bus, e.pa, |bytes|, e.ctx.hart);
      LoadSame(h.bus, checked.0, cell, 8);
      if checked.1 {
        ApartStore(checked.0, e.pa, bytes, cell);
      }
    case Amo(len, op, src) =>
      var data := Load(h.bus, e.pa, len);
      if data.Some? {
        ApartStore(h.bus, e.pa, ToBytes(AmoResult(op, src, AmoOld(len, data.value)), len), cell);
      }
    case LoadReserved(len) => LoadSame(h.bus, Bus.Reserve(h.bus, e.pa, len, e.ctx.hart), cell, 8);
    case _ =>
  }

  lemma ApartStore(b: BusState, addr: u64, bytes: seq<byte>, cell: u64)
    requires Fits(b) && InMemory(b, cell, 8) && Disjoint(addr, |bytes|, cell, 8)
    ensures var b' := Store(b, addr, bytes).0;
            && Fits(b') && InMemory(b', cell, 8) && Load(b', cell, 8) == Load(b, cell, 8)
            && (b'.res.valid ==> b'.res == b.res)
  {
    hide Load;
    StoreFrame(b, addr, bytes, cell, 8);
    StoreShape(b, addr, bytes);
  }

  predicate AllApart(ts: seq<Turn>, cell: u64) {
    forall i :: 0 <= i < |ts| && ts[i].Elsewhere? ==> Apart(ts[i].e, cell)
  }

  lemma {:induction false} RunCounts(h: Harts, cell: u64, ts: seq<Turn>, initial: nat)
    requires Counts(h, cell, initial) && AllApart(ts, cell)
    ensures Counts(TakeAll(h, cell, ts), cell, initial)
    decreases |ts|
  {
    hide Counts, Take, Apart;
    if ts != [] {
      match ts[0] {
        case Reserve(ctx) => ReserveCounts(h, cell, ctx, initial);
        case Increment(ctx) => IncrementCounts(h, cell, ctx, initial);
        case AddAtomically(ctx, src) => AddCounts(h, cell, ctx, src, initial);
        case Elsewhere(e) => ApartCounts(h, cell, e, initial);
      }
      RunCounts(Take(h, cell, ts[0]), cell, ts[1..], initial);
    }
  }

  /**
   * Conservation: over every interleaving of harts that increment the counter with load-reserved
   * and store-conditional, add to it atomically, and store elsewhere, the counter ends at its
   * first value plus all successful additions, modulo 2 to the 64.
   */
  lemma NothingLost(b: BusState, cell: u64, ts: seq<Turn>)
    requires Fits(b) && InMemory(b, cell, 8) && !b.res.valid && AllApart(ts, cell)
    ensures var end := TakeAll(Harts(b, map[], 0), cell, ts);
            InMemory(end.bus, cell, 8) && Cell(end.bus, cell) == Wrap64(Cell(b, cell) + end.added)
  {
    hide TakeAll, FromBytes, Load;
    var start := Harts(b, map[], 0);
    CellFits(b, cell);
    RunCounts(start, cell, ts, Cell(b, cell));
  }

  lemma CellFits(b: BusState, cell: u64)
    requires InMemory(b, cell, 8)
    ensures Cell(b, cell) < TWO_TO_THE_64
  {
    LoadAt(b, cell, 8);
    BytesFit(Load(b, cell, 8).value);
    Power256Word();
  }

  lemma {:induction false} BytesFit(bytes: seq<byte>)
    ensures FromBytes(bytes) < Power256(|bytes|)
  {
    if bytes != [] {
      BytesFit(bytes[1..]);
    }
  }
}
