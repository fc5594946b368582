/**
 * The state a hart keeps between instructions, in every run from reset: x0 is zero, the status
 * word and the interrupt registers hold only the bits they implement, and no trap is pending.
 */
module CoreInvariant {
  import opened Words
  import opened Sv39
  import opened Privilege
  import opened StatusWord
  import opened Decode
  import opened Exec

  predicate Within(w: bv64, mask: bv64) {
    w & !mask == 0
  }

  /** The two modes of a trap vector, and the two of translation. */
  predicate VectorOk(tvec: u64) {
    tvec % 4 <= 1
  }

  predicate ModeOk(satp: u64) {
    satp / 0x1000_0000_0000_0000 == 0 || satp / 0x1000_0000_0000_0000 == 8
  }

  predicate CsrsOk(c: Csrs) {
    && StatusOk(c.status)
    && Within(c.mip, M_INT_MASK) && Within(c.mie, M_INT_MASK)
    && Within(c.mideleg, S_INT_MASK) && Within(c.medeleg, S_EXC_MASK)
    && VectorOk(c.m.tvec) && VectorOk(c.s.tvec) && ModeOk(c.satp)
  }

  predicate CoreOk(c: Core) {
    HasRegs(c) && c.gpr[0] == 0 && CsrsOk(c.csrs)
  }

  /** Between two steps. */
  predicate Resting(m: Machine) {
    WellFormed(m) && CoreOk(m.core) && !m.core.needTrap
  }

  // ----- Writes

  lemma MaskFits(bits: bv64, mask: bv64)
    ensures Within(Legal(bits, mask), mask)
  {
  }

  lemma MergeFits(w: bv64, bits: bv64)
    requires Within(w, M_INT_MASK)
    ensures Within(Merged(w, bits), M_INT_MASK)
  {
  }

  lemma ModesFit(data: u64)
    ensures VectorOk(if data % 4 > 1 then data - data % 4 else data) && (data % 4 <= 1 ==> VectorOk(data))
    ensures ModeOk(LegalSatp(data))
  {
  }

  lemma StatusWriteKeeps(c: Csrs, csr: Csr, bits: bv64)
    requires CsrsOk(c) && (csr.MStatus? || csr.SStatus?)
    ensures CsrsOk(WriteBits(c, csr, bits))
  {
    hide StatusOk, Within, WriteMStatus, WriteSStatus, VectorOk, ModeOk, Legal, Merged;
    WritesKeepStatus(c.status, bits);
  }

  lemma DelegationWriteKeeps(c: Csrs, csr: Csr, bits: bv64)
    requires CsrsOk(c) && (csr.Medeleg? || csr.Mideleg?)
    ensures CsrsOk(WriteBits(c, csr, bits))
  {
    hide StatusOk, Within, WriteMStatus, WriteSStatus, VectorOk, ModeOk, Legal, Merged;
    MaskFits(bits, S_EXC_MASK);
    MaskFits(bits, S_INT_MASK);
  }

  lemma InterruptWriteKeeps(c: Csrs, csr: Csr, bits: bv64)
    requires CsrsOk(c) && (csr.Mie? || csr.Mip? || csr.Sie? || csr.Sip?)
    ensures CsrsOk(WriteBits(c, csr, bits))
  {
    hide StatusOk, Within, WriteMStatus, WriteSStatus, VectorOk, ModeOk, Legal, Merged;
    MaskFits(bits, M_INT_MASK);
    MergeFits(c.mie, bits);
    MergeFits(c.mip, bits);
  }

  lemma BitsWriteKeeps(c: Csrs, csr: Csr, bits: bv64)
    requires CsrsOk(c) && IsBits(csr)
    ensures CsrsOk(WriteBits(c, csr, bits))
  {
    hide CsrsOk, WriteBits;
    if csr.MStatus? || csr.SStatus? {
      StatusWriteKeeps(c, csr, bits);
    } else if csr.Medeleg? || csr.Mideleg? {
      DelegationWriteKeeps(c, csr, bits);
    } else {
      InterruptWriteKeeps(c, csr, bits);
    }
  }

  lemma BankWriteKeeps(bank: Bank, csr: Csr, data: u64, bits: bv64)
    requires VectorOk(bank.tvec)
    ensures IsMachineBank(csr) ==>
              var r := WriteMachineBank(bank, csr, data, bits); r.Some? ==> VectorOk(r.value.tvec)
    ensures IsSupervisorBank(csr) ==> VectorOk(WriteSupervisorBank(bank, csr, data, bits).tvec)
  {
    hide VectorOk, Word, Legal;
    ModesFit(data);
  }

  lemma BanksKeep(c: Csrs, csr: Csr, data: u64, bits: bv64)
    requires CsrsOk(c)
    ensures IsMachineBank(csr) ==>
              var r := WriteMachineBank(c.m, csr, data, bits); r.Some? ==> CsrsOk(c.(m := r.value))
    ensures IsSupervisorBank(csr) ==> CsrsOk(c.(s := WriteSupervisorBank(c.s, csr, data, bits)))
  {
    hide StatusOk, Within, VectorOk, ModeOk, WriteMachineBank, WriteSupervisorBank;
    BankWriteKeeps(c.m, csr, data, bits);
    BankWriteKeeps(c.s, csr, data, bits);
  }

  lemma OtherWriteKeeps(c: Csrs, priv: Priv, csr: Csr, data: u64)
    requires CsrsOk(c)
    ensures var r := WriteOther(c, priv, csr, data); r.Written? ==> CsrsOk(r.csrs)
  {
    hide StatusOk, Within, VectorOk, ModeOk, LegalSatp, Flag;
    ModesFit(data);
  }

  lemma WriteKeeps(c: Csrs, priv: Priv, csr: Csr, data: u64, bits: bv64)
    requires CsrsOk(c)
    ensures var r := WriteNamed(c, priv, csr, data, bits); r.Written? ==> CsrsOk(r.csrs)
  {
    hide CsrsOk, WriteBits, WriteMachineBank, WriteSupervisorBank, WriteOther, IsBits, IsMachineBank, IsSupervisorBank;
    if IsBits(csr) {
      BitsWriteKeeps(c, csr, bits);
    } else if IsMachineBank(csr) || IsSupervisorBank(csr) {
      BanksKeep(c, csr, data, bits);
    } else {
      OtherWriteKeeps(c, priv, csr, data);
    }
  }

  lemma BitsWriteFrame(c: Csrs, csr: Csr, bits: bv64)
    requires IsBits(csr)
    ensures var r := WriteBits(c, csr, bits);
            (r.minstret, r.hartid, r.misa) == (c.minstret, c.hartid, c.misa)
  {
    hide WriteMStatus, WriteSStatus, Legal, Merged;
  }

  /** A write touches neither the counter of retired instructions nor the identity of the hart. */
  lemma WriteFrame(c: Csrs, priv: Priv, csr: Csr, data: u64, bits: bv64)
    ensures var r := WriteNamed(c, priv, csr, data, bits);
            r.Written? ==> (r.csrs.minstret, r.csrs.hartid, r.csrs.misa) == (c.minstret, c.hartid, c.misa)
  {
    hide WriteBits, WriteMachineBank, WriteSupervisorBank, Flag, LegalSatp;
    if IsBits(csr) {
      BitsWriteFrame(c, csr, bits);
    }
  }

  // ----- Traps and returns

  lemma TrapToMKeeps(c: Core, code: nat, interrupt: bool, tval: u64)
    requires CoreOk(c) && code < 64
    ensures CoreOk(TrapToM(c, code, interrupt, tval))
  {
    hide StatusOk, Within, TrapMStatus, PrivBits, TrapTarget, VectorOk, ModeOk;
    TrapMKeepsStatus(c.csrs.status, PrivBits(c.priv));
  }

  lemma TrapToSKeeps(c: Core, code: nat, interrupt: bool, tval: u64)
    requires CoreOk(c) && code < 64
    ensures CoreOk(TrapToS(c, code, interrupt, tval))
  {
    hide StatusOk, Within, TrapSStatus, PrivBits, TrapTarget, VectorOk, ModeOk;
    TrapSKeepsStatus(c.csrs.status, PrivBits(c.priv));
  }

  lemma RaiseKeeps(c: Core, code: nat, interrupt: bool, tval: u64)
    requires CoreOk(c) && code < 64
    ensures CoreOk(RaiseTrap(c, code, interrupt, tval))
  {
    hide TrapToM, TrapToS, CsrsOk, Delegated;
    TrapToMKeeps(c, code, interrupt, tval);
    TrapToSKeeps(c, code, interrupt, tval);
  }

  lemma ReturnKeeps(c: Core)
    requires CoreOk(c)
    ensures Mret(c).Some? ==> CoreOk(Mret(c).value)
    ensures Sret(c).Some? ==> CoreOk(Sret(c).value)
  {
    hide StatusOk, Within, MretStatus, SretStatus, Mpp, Spp, Flag;
    MretKeepsStatus(c.csrs.status);
    SretKeepsStatus(c.csrs.status);
  }

  lemma LinesFit(mip: bv64, lines: Lines)
    requires Within(mip, M_INT_MASK)
    ensures Within(SetLines(mip, lines), M_INT_MASK)
  {
  }

  lemma BeginKeeps(c: Core, lines: Lines)
    requires CoreOk(c)
    ensures CoreOk(Begin(c, lines)) && !Begin(c, lines).needTrap
  {
    hide StatusOk, Within, SetLines;
    LinesFit(c.csrs.mip, lines);
  }
}
