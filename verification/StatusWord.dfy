/**
 * What the operations on mstatus do to its bits: which fields each may change, and that sstatus
 * is a window on the supervisor fields (sections 3.1.6 and 4.1.1 of the Privileged ISA).
 */
module StatusWord {
  import opened Sv39
  import opened Privilege

  // SIE, MIE, SPIE, MPIE, SPP, MPP, MPRV, SUM, MXR, TVM, TW, TSR
  const M_WRITABLE: bv64 := 0x7e_19aa

  // SIE, SPIE, SPP, SUM, MXR
  const S_WRITABLE: bv64 := 0xc_0122

  // SIE, SPIE, UBE, SPP, VS, FS, XS, SUM, MXR, UXL, SD
  const S_VISIBLE: bv64 := 0x8000_0003_000d_e762

  // UXL and SXL equal to 2
  const XLEN_64: bv64 := 0xa_0000_0000

  /** Reserved, endianness, FS, VS, XS and SD bits are zero and both register widths are 64. */
  predicate StatusOk(status: bv64) {
    status & !M_WRITABLE == XLEN_64
  }

  function Masked(prior: bv64, data: bv64, mask: bv64): bv64 {
    (prior & !mask) | (data & mask)
  }

  lemma SStatusIsMasked(status: bv64)
    ensures SStatusView(status) == status & S_VISIBLE
  {
  }

  lemma WriteSStatusIsMasked(status: bv64, data: bv64)
    ensures WriteSStatus(status, data) == Masked(status, data, S_WRITABLE)
  {
    hide CopyFld, Masked;
    MaskedNothing(status, data);
    SupervisorFieldsLow(status, data);
    SupervisorFieldsHigh(status, data);
  }

  lemma MaskedNothing(status: bv64, data: bv64)
    ensures Masked(status, data, 0) == status
  {
  }

  lemma SupervisorFieldsLow(status: bv64, data: bv64)
    ensures CopyFld(CopyFld(CopyFld(Masked(status, data, 0), data, SIE, 1), data, SPIE, 1), data, SPP, 1) ==
            Masked(status, data, 0x122)
  {
  }

  lemma SupervisorFieldsHigh(status: bv64, data: bv64)
    ensures CopyFld(CopyFld(Masked(status, data, 0x122), data, SUM, 1), data, MXR, 1) ==
            Masked(status, data, S_WRITABLE)
  {
  }

  lemma WriteMStatusIsMasked(status: bv64, data: bv64)
    ensures WriteMStatus(status, data) == Masked(status, data, M_WRITABLE)
  {
    hide CopyFld, Masked;
    MaskedNothing(status, data);
    MachineFieldsLow(status, data);
    MachineFieldsMiddle(status, data);
    MachineFieldsHigh(status, data);
  }

  lemma MachineFieldsLow(status: bv64, data: bv64)
    ensures CopyFld(CopyFld(CopyFld(CopyFld(Masked(status, data, 0), data, SIE, 1), data, MIE, 1),
                            data, SPIE, 1), data, MPIE, 1) ==
            Masked(status, data, 0xaa)
  {
  }

  lemma MachineFieldsMiddle(status: bv64, data: bv64)
    ensures CopyFld(CopyFld(CopyFld(CopyFld(Masked(status, data, 0xaa), data, SPP, 1), data, MPP, 3),
                            data, MPRV, 1), data, SUM, 1) ==
            Masked(status, data, 0x6_19aa)
  {
  }

  lemma MachineFieldsHigh(status: bv64, data: bv64)
    ensures CopyFld(CopyFld(CopyFld(CopyFld(Masked(status, data, 0x6_19aa), data, MXR, 1), data, TVM, 1),
                            data, TW, 1), data, TSR, 1) ==
            Masked(status, data, M_WRITABLE)
  {
  }

  /**
   * A write through sstatus is seen through sstatus and nowhere else, and writing back what was
   * read changes nothing.
   */
  lemma SStatusWindow(status: bv64, data: bv64)
    ensures SStatusView(WriteSStatus(status, data)) == Masked(SStatusView(status), data, S_WRITABLE)
    ensures WriteSStatus(status, data) & !S_VISIBLE == status & !S_VISIBLE
    ensures WriteSStatus(status, SStatusView(status)) == status
    ensures StatusOk(status) ==> SStatusView(WriteSStatus(status, data)) == (data & S_WRITABLE) | 0x2_0000_0000
  {
    hide SStatusView, WriteSStatus, Masked, StatusOk;
    SStatusIsMasked(status);
    SStatusIsMasked(WriteSStatus(status, data));
    WriteSStatusIsMasked(status, data);
    WriteSStatusIsMasked(status, SStatusView(status));
    MaskedSeen(status, data);
    MaskedUnseen(status, data);
    MaskedBack(status);
    if StatusOk(status) {
      MaskedFixed(status, data);
    }
  }

  lemma MaskedSeen(status: bv64, data: bv64)
    ensures Masked(status, data, S_WRITABLE) & S_VISIBLE == Masked(status & S_VISIBLE, data, S_WRITABLE)
  {
  }

  lemma MaskedUnseen(status: bv64, data: bv64)
    ensures Masked(status, data, S_WRITABLE) & !S_VISIBLE == status & !S_VISIBLE
  {
  }

  lemma MaskedBack(status: bv64)
    ensures Masked(status, status & S_VISIBLE, S_WRITABLE) == status
  {
  }

  lemma MaskedFixed(status: bv64, data: bv64)
    requires StatusOk(status)
    ensures Masked(status, data, S_WRITABLE) & S_VISIBLE == (data & S_WRITABLE) | 0x2_0000_0000
  {
  }

  // ----- Traps and returns

  const M_TRAP: bv64 := 0x1888  // MIE, MPIE, MPP
  const S_TRAP: bv64 := 0x122   // SIE, SPIE, SPP
  const MPRV_BIT: bv64 := 0x2_0000

  lemma PrivFits(p: Priv)
    ensures PrivBits(p) <= 3 && PrivOf(PrivBits(p)) == p
  {
  }

  lemma TrapMFrame(status: bv64, from: bv64)
    ensures TrapMStatus(status, from) & !M_TRAP == status & !M_TRAP
  {
  }

  lemma TrapMFlags(status: bv64, from: bv64)
    ensures var s := TrapMStatus(status, from);
            !Flag(s, MIE) && (Flag(s, MPIE) <==> Flag(status, MIE))
  {
  }

  lemma TrapMPrivilege(status: bv64, from: bv64)
    requires from <= 3
    ensures Fld(TrapMStatus(status, from), MPP, 3) == from
  {
  }

  lemma TrapSFrame(status: bv64, from: bv64)
    ensures TrapSStatus(status, from) & !S_TRAP == status & !S_TRAP
  {
  }

  lemma TrapSFlags(status: bv64, from: bv64)
    ensures var s := TrapSStatus(status, from);
            !Flag(s, SIE) && (Flag(s, SPIE) <==> Flag(status, SIE))
  {
  }

  lemma TrapSPrivilege(status: bv64, from: bv64)
    ensures Fld(TrapSStatus(status, from), SPP, 1) == from & 1
  {
  }

  lemma MretFrame(status: bv64)
    ensures MretStatus(status) & !(M_TRAP | MPRV_BIT) == status & !(M_TRAP | MPRV_BIT)
  {
  }

  lemma MretFlags(status: bv64)
    ensures var s := MretStatus(status);
            (Flag(s, MIE) <==> Flag(status, MPIE)) && Flag(s, MPIE)
  {
  }

  lemma MretPrivilege(status: bv64)
    ensures var s := MretStatus(status);
            Fld(s, MPP, 3) == 0 && (Flag(s, MPRV) <==> Flag(status, MPRV) && Fld(status, MPP, 3) == 3)
  {
  }

  lemma SretFrame(status: bv64)
    ensures SretStatus(status) & !(S_TRAP | MPRV_BIT) == status & !(S_TRAP | MPRV_BIT)
  {
  }

  lemma SretFlags(status: bv64)
    ensures var s := SretStatus(status);
            (Flag(s, SIE) <==> Flag(status, SPIE)) && Flag(s, SPIE)
  {
  }

  lemma SretPrivilege(status: bv64)
    ensures var s := SretStatus(status);
            Fld(s, SPP, 1) == 0 && !Flag(s, MPRV)
  {
  }

  /** An operation that changes writable bits only keeps the fixed ones. */
  lemma KeepsFixedBits(status: bv64, s: bv64, mask: bv64)
    requires s & !mask == status & !mask && mask & !M_WRITABLE == 0 && StatusOk(status)
    ensures StatusOk(s)
  {
  }

  lemma TrapMKeepsStatus(status: bv64, from: bv64)
    requires StatusOk(status)
    ensures StatusOk(TrapMStatus(status, from))
  {
    hide TrapMStatus, StatusOk;
    TrapMFrame(status, from);
    KeepsFixedBits(status, TrapMStatus(status, from), M_TRAP);
  }

  lemma TrapSKeepsStatus(status: bv64, from: bv64)
    requires StatusOk(status)
    ensures StatusOk(TrapSStatus(status, from))
  {
    hide TrapSStatus, StatusOk;
    TrapSFrame(status, from);
    KeepsFixedBits(status, TrapSStatus(status, from), S_TRAP);
  }

  lemma MretKeepsStatus(status: bv64)
    requires StatusOk(status)
    ensures StatusOk(MretStatus(status))
  {
    hide MretStatus, StatusOk;
    MretFrame(status);
    KeepsFixedBits(status, MretStatus(status), M_TRAP | MPRV_BIT);
  }

  lemma SretKeepsStatus(status: bv64)
    requires StatusOk(status)
    ensures StatusOk(SretStatus(status))
  {
    hide SretStatus, StatusOk;
    SretFrame(status);
    KeepsFixedBits(status, SretStatus(status), S_TRAP | MPRV_BIT);
  }

  lemma MaskedKeepsStatus(status: bv64, data: bv64, mask: bv64)
    requires StatusOk(status) && mask & !M_WRITABLE == 0
    ensures StatusOk(Masked(status, data, mask))
  {
  }

  lemma WritesKeepStatus(status: bv64, data: bv64)
    requires StatusOk(status)
    ensures StatusOk(WriteMStatus(status, data)) && StatusOk(WriteSStatus(status, data))
  {
    hide WriteMStatus, WriteSStatus, StatusOk, Masked;
    WriteMStatusIsMasked(status, data);
    WriteSStatusIsMasked(status, data);
    MaskedKeepsStatus(status, data, M_WRITABLE);
    MaskedKeepsStatus(status, data, S_WRITABLE);
  }
}
