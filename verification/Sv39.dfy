/**
 * Sv39 address translation: the page-table walk, the 32-entry translation cache in front of
 * it, and the six kinds of access that go through it.  Every access is described twice: as
 * the cached machine performs it, and as a machine that walks the tables each time would.
 */
module Sv39 {
  import opened Words
  import opened Bus

  const TLB_SIZE := 32

  datatype Priv = U | S | H | M

  /** The parts of satp, mstatus and the privilege mode that translation looks at. */
  datatype Context = Context(priv: Priv, mode: nat, ppn: nat, asid: nat, hart: nat,
                             mprv: bool, mpp: Priv, sum: bool, mxr: bool)

  // ----- Page tables

  datatype Pte = Pte(v: bool, r: bool, w: bool, x: bool, u: bool, g: bool, a: bool, d: bool,
                     ppn0: nat, ppn1: nat, ppn2: nat, reserved: nat, pbmt: nat)

  function DecodePte(raw: nat): Pte {
    Pte(raw % 2 == 1, raw / 2 % 2 == 1, raw / 4 % 2 == 1, raw / 8 % 2 == 1,
        raw / 16 % 2 == 1, raw / 32 % 2 == 1, raw / 64 % 2 == 1, raw / 128 % 2 == 1,
        raw / 0x400 % 0x200, raw / 0x8_0000 % 0x200, raw / 0x1000_0000 % 0x400_0000,
        raw / 0x40_0000_0000_0000 % 0x80, raw / 0x2000_0000_0000_0000 % 4)
  }

  predicate IsValidDirPte(p: Pte) {
    p.v && !(p.r || p.w || p.x) && p.reserved == 0 && p.pbmt == 0
  }

  predicate IsValidLeafPte(p: Pte) {
    p.v && !(p.w && !p.r) && (p.r || p.w || p.x) && p.reserved == 0 && p.pbmt == 0
  }

  /** Physical address named by an entry: of the next table, or of the page. */
  function PteTarget(p: Pte): nat {
    (p.ppn2 * 0x4_0000 + p.ppn1 * 0x200 + p.ppn0) * 0x1000
  }

  function Vpn(va: u64, level: nat): nat {
    if level == 3 then va / 0x4000_0000 % 0x200
    else if level == 2 then va / 0x20_0000 % 0x200
    else va / 0x1000 % 0x200
  }

  /** First address of the page around `va`: 4 KB, 2 MB or 1 GB for size code 1, 2 or 3. */
  function PageBase(va: u64, pagesize: nat): u64 {
    va - PageOffset(va, pagesize)
  }

  function PageOffset(va: u64, pagesize: nat): (offset: nat)
    ensures offset <= va
  {
    if pagesize == 3 then va % 0x4000_0000
    else if pagesize == 2 then va % 0x20_0000
    else va % 0x1000
  }

  /** Bits 63 to 39 must all equal bit 38. */
  predicate Canonical(va: u64) {
    va < 0x40_0000_0000 || va >= 0xffff_ffc0_0000_0000
  }

  /** Outcome of a walk; BadTable is a table entry that cannot be read from main memory. */
  datatype Walked = Leaf(pte: Pte, pagesize: nat) | NoLeaf | BadTable

  function WalkFrom(b: BusState, table: nat, va: u64, level: nat): Walked
    requires 1 <= level <= 3
    decreases level
  {
    var at := table + Vpn(va, level) * 8;
    if at >= TWO_TO_THE_64 then BadTable else
    match Load(b, at, 8)
    case None => BadTable
    case Some(bytes) =>
      var pte := DecodePte(FromBytes(bytes));
      if IsValidLeafPte(pte) then Leaf(pte, level)
      else if level == 1 || !IsValidDirPte(pte) then NoLeaf
      else WalkFrom(b, PteTarget(pte), va, level - 1)
  }

  function Walk(b: BusState, root: nat, va: u64): Walked {
    WalkFrom(b, root * 0x1000, va, 3)
  }

  // ----- The cache

  datatype Entry = Entry(ppa: nat, vpa: nat, asid: nat, pagesize: nat,
                         r: bool, w: bool, x: bool, u: bool, g: bool, a: bool, d: bool)

  predicate Matches(e: Entry, asid: nat, va: u64) {
    (e.asid == asid || e.g) && 1 <= e.pagesize <= 3 && PageBase(va, e.pagesize) == e.vpa
  }

  /** The entry written for a leaf found while translating `va` in address space `asid`. */
  function Fill(pte: Pte, pagesize: nat, asid: nat, va: u64): Entry {
    Entry(PteTarget(pte), PageBase(va, pagesize), asid, pagesize,
          pte.r, pte.w, pte.x, pte.u, pte.g, pte.a, pte.d)
  }

  datatype Tlb = Tlb(entries: seq<Entry>, next: nat) {
    predicate Valid() {
      |entries| == TLB_SIZE && next < TLB_SIZE
    }
  }

  /** Least index from `i` on whose entry matches, or the length if there is none. */
  function Scan(entries: seq<Entry>, asid: nat, va: u64, i: nat): (k: nat)
    requires i <= |entries|
    ensures i <= k <= |entries|
    ensures k < |entries| ==> Matches(entries[k], asid, va)
    ensures forall j :: i <= j < k ==> !Matches(entries[j], asid, va)
    decreases |entries| - i
  {
    if i == |entries| || Matches(entries[i], asid, va) then i else Scan(entries, asid, va, i + 1)
  }

  /** Aborted: one of the assertions of the lookup stops the emulator. */
  datatype Lookup = Hit(entry: Entry) | Miss | Aborted

  function Replace(t: Tlb, e: Entry): Tlb
    requires t.Valid()
  {
    Tlb(t.entries[t.next := e], (t.next + 1) % TLB_SIZE)
  }

  function GetEntry(t: Tlb, b: BusState, c: Context, va: u64): (Tlb, Lookup)
    requires t.Valid()
  {
    if !Canonical(va) then (t, Aborted) else
    var i := Scan(t.entries, c.asid, va, 0);
    if i < TLB_SIZE then
      (t, if Scan(t.entries, c.asid, va, i + 1) < TLB_SIZE then Aborted else Hit(t.entries[i]))
    else if c.mode != 8 then (t, Miss)
    else
      match Walk(b, c.ppn, va)
      case BadTable => (t, Aborted)
      case NoLeaf => (t, Miss)
      case Leaf(pte, pagesize) =>
        var e := Fill(pte, pagesize, c.asid, va);
        (Replace(t, e), Hit(e))
  }

  /** The same lookup without a cache. */
  function FreshEntry(b: BusState, c: Context, va: u64): Lookup {
    if !Canonical(va) then Aborted
    else if c.mode != 8 then Miss
    else
      match Walk(b, c.ppn, va)
      case BadTable => Aborted
      case NoLeaf => Miss
      case Leaf(pte, pagesize) => Hit(Fill(pte, pagesize, c.asid, va))
  }

  /** sfence.vma: a zero address means every page, a zero asid every address space. */
  predicate Flushed(e: Entry, vaddr: u64, asid: nat) {
    (e.asid == asid || asid == 0) &&
    (vaddr == 0 ||
     (1 <= e.pagesize <= 3 && e.vpa < TWO_TO_THE_64 &&
      PageBase(e.vpa, e.pagesize) == PageBase(vaddr, e.pagesize)))
  }

  function Flush(t: Tlb, vaddr: u64, asid: nat): Tlb {
    t.(entries := seq(|t.entries|, i requires 0 <= i < |t.entries| =>
                        if Flushed(t.entries[i], vaddr, asid) then t.entries[i].(pagesize := 0) else t.entries[i]))
  }

  // ----- Accesses

  datatype AmoOp = Swap | Add | XorOp | AndOp | OrOp | Min | Max | MinU | MaxU

  datatype Access =
    | Read(len: nat)
    | Fetch(len: nat)
    | Write(bytes: seq<byte>)
    | LoadReserved(len: nat)
    | StoreConditional(bytes: seq<byte>)
    | Amo(len: nat, op: AmoOp, src: u64)

  datatype Fault = AccessFault | PageFault | Misaligned

  datatype Reply =
    | Data(value: seq<byte>)
    | Stored
    | Conditional(failed: bool)
    | Prior(prior: u64)
    | Faulted(fault: Fault)
    | Stopped

  function Length(a: Access): nat {
    match a
    case Read(len) => len
    case Fetch(len) => len
    case Write(bytes) => |bytes|
    case LoadReserved(len) => len
    case StoreConditional(bytes) => |bytes|
    case Amo(len, _, _) => len
  }

  /** Value written back by an atomic operation on the sign-extended old value. */
  function AmoResult(op: AmoOp, src: u64, prior: u64): u64 {
    match op
    case Swap => src
    case Add => Wrap64(src + prior)
    case AndOp => And(src, prior)
    case OrOp => Or(src, prior)
    case XorOp => Xor(src, prior)
    case Max => if Signed64(src) < Signed64(prior) then prior else src
    case Min => if Signed64(prior) < Signed64(src) then prior else src
    case MaxU => if src < prior then prior else src
    case MinU => if prior < src then prior else src
  }

  /** Old value of an atomic operation: a word is sign-extended. */
  function AmoOld(len: nat, bytes: seq<byte>): u64 {
    Wrap64(if len == 4 then Signed32(FromBytes(bytes)) else FromBytes(bytes))
  }

  /** The access on the bus, once its physical address is known. */
  function Perform(b: BusState, c: Context, a: Access, pa: u64, translated: bool): (BusState, Reply) {
    match a
    case Read(len) => (b, LoadReply(b, pa, len))
    case Fetch(len) => (b, LoadReply(b, pa, len))
    case LoadReserved(len) =>
      var b' := Reserve(b, pa, len, c.hart);
      (b', LoadReply(b', pa, len))
    case Write(bytes) =>
      var (b', ok) := Store(b, pa, bytes);
      (b', if ok then Stored else Faulted(if translated then PageFault else AccessFault))
    case StoreConditional(bytes) =>
      var (b1, held) := Check(b, pa, |bytes|, c.hart);
      if !held then (b1, Conditional(true)) else
      var (b2, ok) := Store(b1, pa, bytes);
      (b2, if ok then Conditional(false) else Faulted(if translated then PageFault else AccessFault))
    case Amo(len, op, src) =>
      match Load(b, pa, len)
      case None => (b, Faulted(AccessFault))
      case Some(bytes) =>
        var prior := AmoOld(len, bytes);
        var (b', ok) := Store(b, pa, ToBytes(AmoResult(op, src, prior), len));
        (b', if ok then Prior(prior) else Faulted(AccessFault))
  }

  function LoadReply(b: BusState, pa: u64, len: nat): Reply {
    match Load(b, pa, len)
    case Some(bytes) => Data(bytes)
    case None => Faulted(AccessFault)
  }

  /** No translation in M-mode (unless mprv redirects a data access) or with paging off. */
  predicate Bare(c: Context, a: Access) {
    c.mode == 0 || (c.priv == M && (a.Fetch? || !c.mprv || c.mpp == M))
  }

  predicate CrossesPage(va: u64, len: nat) {
    va / 0x1000 != Wrap64(va + len - 1) / 0x1000
  }

  function Effective(c: Context): Priv {
    if c.mprv && c.priv == M then c.mpp else c.priv
  }

  /** The fault a page's permission bits cause, in the order the source tests them. */
  function Denied(c: Context, a: Access, e: Entry): Option<Fault> {
    match a
    case Fetch(_) =>
      if !e.a || !e.x then Some(PageFault)
      else if (c.priv == U && !e.u) || (c.priv == S && e.u) then Some(PageFault)
      else None
    case Read(_) => DeniedRead(c, e)
    case LoadReserved(_) => DeniedRead(c, e)
    case Write(_) => DeniedWrite(c, e)
    case StoreConditional(_) => DeniedWrite(c, e)
    case Amo(_, _, _) => DeniedWrite(c, e)
  }

  function DeniedRead(c: Context, e: Entry): Option<Fault> {
    if !e.a || (!e.r && !(c.mxr && !e.x)) then Some(PageFault)
    else if Effective(c) == U && !e.u then Some(PageFault)
    else if !c.sum && c.priv == S && e.u then Some(AccessFault)
    else None
  }

  function DeniedWrite(c: Context, e: Entry): Option<Fault> {
    if !e.a || !e.d || !e.w then Some(PageFault)
    else if Effective(c) == U && !e.u then Some(PageFault)
    else if !c.sum && Effective(c) == S && e.u then Some(PageFault)
    else None
  }

  /** What an access does once the lookup of its page has answered. */
  function Finish(b: BusState, c: Context, a: Access, va: u64, l: Lookup): (BusState, Reply) {
    match l
    case Aborted => (b, Stopped)
    case Miss => (b, Faulted(PageFault))
    case Hit(e) =>
      match Denied(c, a, e)
      case Some(fault) => (b, Faulted(fault))
      case None => Perform(b, c, a, Wrap64(e.ppa + PageOffset(va, e.pagesize)), true)
  }

  predicate Translated(c: Context, a: Access, va: u64) {
    !Bare(c, a) && !CrossesPage(va, Length(a))
  }

  /** The part of an access that needs no lookup. */
  function Untranslated(b: BusState, c: Context, a: Access, va: u64): (BusState, Reply) {
    if Bare(c, a) then Perform(b, c, a, va, false) else (b, Faulted(Misaligned))
  }

  function CachedAccess(t: Tlb, b: BusState, c: Context, a: Access, va: u64): (Tlb, BusState, Reply)
    requires t.Valid()
  {
    if Translated(c, a, va) then
      var (t', l) := GetEntry(t, b, c, va);
      var (b', reply) := Finish(b, c, a, va, l);
      (t', b', reply)
    else
      var (b', reply) := Untranslated(b, c, a, va);
      (t, b', reply)
  }

  function FreshAccess(b: BusState, c: Context, a: Access, va: u64): (BusState, Reply) {
    if Translated(c, a, va) then Finish(b, c, a, va, FreshEntry(b, c, va))
    else Untranslated(b, c, a, va)
  }

  /** A 4-byte fetch from an odd halfword is made of two 2-byte fetches. */
  predicate SplitFetch(a: Access, va: u64) {
    a == Fetch(4) && va % 4 == 2
  }
}
