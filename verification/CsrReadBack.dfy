/**
 * What a CSR instruction reads after it has written a register of bits: the bits that the register
 * implements as written, the others as they were.
 */
module CsrReadBack {
  import opened Words
  import opened Sv39
  import opened Privilege
  import opened StatusWord
  import opened Decode
  import opened Exec
  import opened CoreInvariant

  /** The bits of a register that a write may change. */
  function Writable(csr: Csr): bv64
    requires IsBits(csr)
  {
    match csr
    case MStatus => M_WRITABLE
    case SStatus => S_WRITABLE
    case Medeleg => S_EXC_MASK
    case Mideleg => S_INT_MASK
    case Mie => M_INT_MASK
    case Mip => M_INT_MASK
    case Sie => S_INT_MASK
    case Sip => S_INT_MASK
  }

  /** The bits that are read. */
  function Seen(c: Csrs, csr: Csr): bv64
    requires IsBits(csr)
  {
    match csr
    case MStatus => c.status
    case SStatus => SStatusView(c.status)
    case Medeleg => c.medeleg
    case Mideleg => c.mideleg
    case Mie => c.mie
    case Mip => c.mip
    case Sie => View(c.mie)
    case Sip => View(c.mip)
  }

  /** The supervisor's part of an interrupt register. */
  function View(w: bv64): bv64 {
    w & S_INT_MASK
  }

  /** The register value with the masked bits taken from the data. */
  function Replaced(prior: u64, data: u64, mask: u64): u64 {
    Or(And(prior, Not(mask)), And(data, mask))
  }

  lemma MaskedByParts(prior: bv64, bits: bv64, mask: bv64)
    ensures Either(Both(prior, Complement(mask)), Both(bits, mask)) == Masked(prior, bits, mask)
  {
  }

  lemma ReplacedIsMasked(prior: bv64, data: u64, mask: bv64)
    ensures Replaced(Word(prior), data, Word(mask)) == Word(Masked(prior, Bits(data), mask))
  {
    hide Word, Bits, Both, Either, Complement, Masked;
    BitsOfWord(prior);
    BitsOfWord(mask);
    BitsOfWord(Complement(mask));
    BitsOfWord(Both(prior, Complement(mask)));
    BitsOfWord(Both(Bits(data), mask));
    MaskedByParts(prior, Bits(data), mask);
  }

  lemma LegalIsMasked(prior: bv64, bits: bv64, mask: bv64)
    requires Within(prior, mask)
    ensures Legal(bits, mask) == Masked(prior, bits, mask)
  {
  }

  lemma MergedIsMasked(prior: bv64, bits: bv64)
    ensures View(Merged(prior, bits)) == Masked(View(prior), bits, S_INT_MASK)
  {
  }

  lemma StatusAfterWrite(c: Csrs, csr: Csr, bits: bv64)
    requires CsrsOk(c) && (csr.MStatus? || csr.SStatus?)
    ensures Seen(WriteBits(c, csr, bits), csr) == Masked(Seen(c, csr), bits, Writable(csr))
  {
    hide StatusOk, Within, VectorOk, ModeOk, WriteMStatus, WriteSStatus, SStatusView, Legal, Merged, Masked, View;
    WriteMStatusIsMasked(c.status, bits);
    SStatusWindow(c.status, bits);
  }

  lemma DelegationAfterWrite(c: Csrs, csr: Csr, bits: bv64)
    requires CsrsOk(c) && (csr.Medeleg? || csr.Mideleg?)
    ensures Seen(WriteBits(c, csr, bits), csr) == Masked(Seen(c, csr), bits, Writable(csr))
  {
    hide StatusOk, Within, VectorOk, ModeOk, WriteMStatus, WriteSStatus, SStatusView, Legal, Merged, Masked, View;
    LegalIsMasked(c.medeleg, bits, S_EXC_MASK);
    LegalIsMasked(c.mideleg, bits, S_INT_MASK);
  }

  lemma InterruptAfterWrite(c: Csrs, csr: Csr, bits: bv64)
    requires CsrsOk(c) && (csr.Mie? || csr.Mip?)
    ensures Seen(WriteBits(c, csr, bits), csr) == Masked(Seen(c, csr), bits, Writable(csr))
  {
    hide StatusOk, Within, VectorOk, ModeOk, WriteMStatus, WriteSStatus, SStatusView, Legal, Merged, Masked, View;
    LegalIsMasked(c.mie, bits, M_INT_MASK);
    LegalIsMasked(c.mip, bits, M_INT_MASK);
  }

  lemma ViewAfterWrite(c: Csrs, csr: Csr, bits: bv64)
    requires CsrsOk(c) && (csr.Sie? || csr.Sip?)
    ensures Seen(WriteBits(c, csr, bits), csr) == Masked(Seen(c, csr), bits, Writable(csr))
  {
    hide StatusOk, Within, VectorOk, ModeOk, WriteMStatus, WriteSStatus, SStatusView, Legal, Merged, Masked, View;
    MergedIsMasked(c.mie, bits);
    MergedIsMasked(c.mip, bits);
  }

  lemma BitsAfterWrite(c: Csrs, csr: Csr, bits: bv64)
    requires CsrsOk(c) && IsBits(csr)
    ensures Seen(WriteBits(c, csr, bits), csr) == Masked(Seen(c, csr), bits, Writable(csr))
  {
    hide CsrsOk, Seen, WriteBits, Masked, Writable;
    if csr.MStatus? || csr.SStatus? {
      StatusAfterWrite(c, csr, bits);
    } else if csr.Medeleg? || csr.Mideleg? {
      DelegationAfterWrite(c, csr, bits);
    } else if csr.Mie? || csr.Mip? {
      InterruptAfterWrite(c, csr, bits);
    } else {
      ViewAfterWrite(c, csr, bits);
    }
  }

  lemma ReadIsSeen(c: Csrs, priv: Priv, index: nat)
    requires IsBits(DecodeCsr(index))
    ensures CsrRead(c, priv, index) == Some(Word(Seen(c, DecodeCsr(index))))
  {
    hide DecodeCsr, SStatusView, Flag, Word;
  }

  /**
   * Reading back mstatus, sstatus, an interrupt or a delegation register after a write gives what
   * was read before with the writable bits replaced by those of the data.
   */
  lemma ReadAfterWrite(c: Csrs, priv: Priv, index: nat, data: u64)
    requires CsrsOk(c) && IsBits(DecodeCsr(index))
    ensures var before, w := CsrRead(c, priv, index), CsrWrite(c, priv, index, data);
            && before.Some? && w.Written?
            && CsrRead(w.csrs, priv, index) ==
               Some(Replaced(before.value, data, Word(Writable(DecodeCsr(index)))))
  {
    hide CsrsOk, DecodeCsr, Word, Bits, Masked, Seen, Writable, WriteBits, CsrRead, Replaced;
    var csr := DecodeCsr(index);
    BitsAfterWrite(c, csr, Bits(data));
    ReadIsSeen(c, priv, index);
    ReadIsSeen(WriteBits(c, csr, Bits(data)), priv, index);
    ReplacedIsMasked(Seen(c, csr), data, Writable(csr));
  }

  lemma WithinIsLegal(prior: bv64, mask: bv64)
    requires Within(prior, mask)
    ensures Legal(prior, mask) == prior
  {
  }

  lemma MergedBack(w: bv64)
    ensures Merged(w, View(w)) == w
  {
  }

  lemma MaskedByItself(w: bv64, mask: bv64)
    ensures Masked(w, w, mask) == w
  {
  }

  lemma StatusWriteBack(c: Csrs, csr: Csr)
    requires CsrsOk(c) && (csr.MStatus? || csr.SStatus?)
    ensures WriteBits(c, csr, Seen(c, csr)) == c
  {
    hide StatusOk, Within, VectorOk, ModeOk, WriteMStatus, WriteSStatus, SStatusView, Legal, Merged, Masked, View;
    WriteMStatusIsMasked(c.status, c.status);
    MaskedByItself(c.status, M_WRITABLE);
    SStatusWindow(c.status, 0);
  }

  lemma DelegationWriteBack(c: Csrs, csr: Csr)
    requires CsrsOk(c) && (csr.Medeleg? || csr.Mideleg?)
    ensures WriteBits(c, csr, Seen(c, csr)) == c
  {
    hide StatusOk, Within, VectorOk, ModeOk, WriteMStatus, WriteSStatus, SStatusView, Legal, Merged, Masked, View;
    WithinIsLegal(c.medeleg, S_EXC_MASK);
    WithinIsLegal(c.mideleg, S_INT_MASK);
  }

  lemma InterruptWriteBack(c: Csrs, csr: Csr)
    requires CsrsOk(c) && (csr.Mie? || csr.Mip?)
    ensures WriteBits(c, csr, Seen(c, csr)) == c
  {
    hide StatusOk, Within, VectorOk, ModeOk, WriteMStatus, WriteSStatus, SStatusView, Legal, Merged, Masked, View;
    WithinIsLegal(c.mie, M_INT_MASK);
    WithinIsLegal(c.mip, M_INT_MASK);
  }

  lemma ViewWriteBack(c: Csrs, csr: Csr)
    requires CsrsOk(c) && (csr.Sie? || csr.Sip?)
    ensures WriteBits(c, csr, Seen(c, csr)) == c
  {
    hide StatusOk, Within, VectorOk, ModeOk, WriteMStatus, WriteSStatus, SStatusView, Legal, Merged, Masked, View;
    MergedBack(c.mie);
    MergedBack(c.mip);
  }

  lemma WriteBackBits(c: Csrs, csr: Csr)
    requires CsrsOk(c) && IsBits(csr)
    ensures WriteBits(c, csr, Seen(c, csr)) == c
  {
    hide CsrsOk, Seen, WriteBits;
    if csr.MStatus? || csr.SStatus? {
      StatusWriteBack(c, csr);
    } else if csr.Medeleg? || csr.Mideleg? {
      DelegationWriteBack(c, csr);
    } else if csr.Mie? || csr.Mip? {
      InterruptWriteBack(c, csr);
    } else {
      ViewWriteBack(c, csr);
    }
  }

  /** Writing back what was read from such a register changes no register at all. */
  lemma WriteBack(c: Csrs, priv: Priv, index: nat)
    requires CsrsOk(c) && IsBits(DecodeCsr(index))
    ensures CsrRead(c, priv, index).Some?
    ensures CsrWrite(c, priv, index, CsrRead(c, priv, index).value) == Written(c)
  {
    hide CsrsOk, DecodeCsr, Word, Bits, Seen, WriteBits, CsrRead;
    ReadIsSeen(c, priv, index);
    BitsOfWord(Seen(c, DecodeCsr(index)));
    WriteBackBits(c, DecodeCsr(index));
  }

  lemma ZeroHasNoBits()
    ensures Bits(0) == 0
  {
    hide Bits;
    DigitsOfZero(64);
    BitsOfWord(0);
  }

  lemma MaskedByNothing(x: bv64, zero: bv64)
    requires zero == 0
    ensures Either(x, zero) == x && Both(x, Complement(zero)) == x
  {
  }

  /** Setting or clearing no bits gives the value there was. */
  lemma NothingToSet(f: bv32, prior: u64)
    requires f == 2 || f == 3 || f == 6 || f == 7
    ensures CsrValue(f, prior, 0) == prior
  {
    hide Word, Bits, Both, Either, Complement;
    ZeroHasNoBits();
    MaskedByNothing(Bits(prior), Bits(0));
    BitsOfWord(Complement(Bits(0)));
    WordOfBits(prior);
  }

  /**
   * CSRRS and CSRRC with an operand of zero leave every CSR as it was, even when they write:
   * only CSRRW can change a register by a write of zero.
   */
  lemma ZeroOperand(m: Machine, a: Action)
    requires WellFormed(m) && CsrsOk(m.core.csrs) && a.CsrOp? && IsBits(DecodeCsr(a.index)) && a.operand == 0
    requires a.f == 2 || a.f == 3 || a.f == 6 || a.f == 7
    ensures Exec.Perform(m, a).m.core.csrs == m.core.csrs && Exec.Perform(m, a).m.core.stop == m.core.stop
  {
    hide CsrsOk, DecodeCsr, CsrRead, CsrWrite, CsrValue, SetGpr;
    WriteBack(m.core.csrs, m.core.priv, a.index);
    NothingToSet(a.f, CsrRead(m.core.csrs, m.core.priv, a.index).value);
    GprOnly(m.core, a.rd, CsrRead(m.core.csrs, m.core.priv, a.index).value);
  }

  lemma GprOnly(c: Core, r: RegNo, value: u64)
    requires HasRegs(c)
    ensures SetGpr(c, r, value) == c.(gpr := SetGpr(c, r, value).gpr)
  {
  }
}
