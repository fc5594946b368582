/**
 * Which interrupt a hart takes, against the rules of sections 3.1.8 and 3.1.9 of the Privileged
 * ISA, and exactly when the emulator departs from them.
 */
module InterruptChoice {
  import opened Words
  import opened Sv39
  import opened Privilege
  import opened CoreInvariant
  import opened StatusWord

  /** Interrupts in the order of precedence: MEI, MSI, MTI, SEI, SSI, STI. */
  const ORDER: seq<nat> := [11, 3, 7, 9, 1, 5]

  predicate Has(bits: bv64, code: nat)
    requires code < 64
  {
    Bit(bits, code)
  }

  /** The first interrupt in the order of precedence that is in the set, if there is one. */
  ghost predicate FirstOf(bits: bv64, code: nat) {
    exists i :: 0 <= i < 6 && ORDER[i] == code && Has(bits, code) &&
                forall j :: 0 <= j < i ==> !Has(bits, ORDER[j])
  }

  lemma BitIsFlag(bits: bv64)
    ensures Bit(bits, 11) == Flag(bits, 11) && Bit(bits, 3) == Flag(bits, 3) && Bit(bits, 7) == Flag(bits, 7)
    ensures Bit(bits, 9) == Flag(bits, 9) && Bit(bits, 1) == Flag(bits, 1) && Bit(bits, 5) == Flag(bits, 5)
  {
  }

  lemma IntCodeIsFirst(bits: bv64)
    ensures IntCode(bits) != NO_INT ==> FirstOf(bits, IntCode(bits))
    ensures IntCode(bits) == NO_INT ==> forall i :: 0 <= i < 6 ==> !Has(bits, ORDER[i])
  {
    hide Flag, Bit;
    BitIsFlag(bits);
    var code := IntCode(bits);
    assert ORDER[0] == 11 && ORDER[1] == 3 && ORDER[2] == 7 && ORDER[3] == 9 && ORDER[4] == 1 && ORDER[5] == 5;
    if code != NO_INT {
      var i := if code == 11 then 0 else if code == 3 then 1 else if code == 7 then 2
               else if code == 9 then 3 else if code == 1 then 4 else 5;
      assert ORDER[i] == code;
    }
  }

  // ----- Sets of interrupts

  lemma Partition(bits: bv64, d: bv64)
    ensures bits & d == 0 ==> bits & !d == bits
    ensures bits & !d == 0 ==> bits & d == bits
    ensures bits == 0 <==> bits & d == 0 && bits & !d == 0
  {
    if bits & d == 0 {
      AllOutside(bits, d);
    }
    if bits & !d == 0 {
      AllInside(bits, d);
    }
    if bits == 0 {
      NoBits(d);
    }
  }

  lemma AllOutside(bits: bv64, d: bv64)
    requires bits & d == 0
    ensures bits & !d == bits
  {
  }

  lemma AllInside(bits: bv64, d: bv64)
    requires bits & !d == 0
    ensures bits & d == bits
  {
  }

  lemma NoBits(d: bv64)
    ensures 0 & d == 0 && 0 & !d == 0
  {
  }

  lemma FlagsOfDifference(bits: bv64, d: bv64)
    ensures Flag(bits & !d, 11) <==> Flag(bits, 11) && !Flag(d, 11)
    ensures Flag(bits & !d, 3) <==> Flag(bits, 3) && !Flag(d, 3)
    ensures Flag(bits & !d, 7) <==> Flag(bits, 7) && !Flag(d, 7)
    ensures Flag(bits & !d, 9) <==> Flag(bits, 9) && !Flag(d, 9)
    ensures Flag(bits & !d, 1) <==> Flag(bits, 1) && !Flag(d, 1)
    ensures Flag(bits & !d, 5) <==> Flag(bits, 5) && !Flag(d, 5)
  {
  }

  lemma FlagsOfBoth(a: bv64, b: bv64)
    ensures Flag(a & b, 11) <==> Flag(a, 11) && Flag(b, 11)
    ensures Flag(a & b, 3) <==> Flag(a, 3) && Flag(b, 3)
    ensures Flag(a & b, 7) <==> Flag(a, 7) && Flag(b, 7)
    ensures Flag(a & b, 9) <==> Flag(a, 9) && Flag(b, 9)
    ensures Flag(a & b, 1) <==> Flag(a, 1) && Flag(b, 1)
    ensures Flag(a & b, 5) <==> Flag(a, 5) && Flag(b, 5)
  {
  }

  /** Leaving out the delegated interrupts changes the choice exactly when the choice is one of them. */
  lemma ChoiceWithout(bits: bv64, d: bv64)
    requires IntCode(bits) != NO_INT
    ensures IntCode(bits & !d) == IntCode(bits) <==> !Bit(d, IntCode(bits))
  {
    hide Flag, Bit;
    FlagsOfDifference(bits, d);
    BitIsFlag(d);
  }

  lemma ChosenIsKept(bits: bv64, d: bv64)
    requires IntCode(bits & !d) != NO_INT
    ensures !Bit(d, IntCode(bits & !d)) && Bit(bits, IntCode(bits & !d))
  {
    hide Flag, Bit;
    FlagsOfDifference(bits, d);
    BitIsFlag(d);
    BitIsFlag(bits);
  }

  lemma CodeIsSet(bits: bv64, d: bv64)
    requires IntCode(bits) != NO_INT && bits & d == 0
    ensures !Bit(d, IntCode(bits))
  {
    Partition(bits, d);
    ChosenIsKept(bits, d);
  }

  // ----- The choice

  /** Only the bits of the six interrupts are implemented. */
  predicate Implemented(bits: bv64) {
    bits & !M_INT_MASK == 0
  }

  lemma SomeInterrupt(bits: bv64)
    requires Implemented(bits)
    ensures bits != 0 <==> IntCode(bits) != NO_INT
  {
  }

  lemma SubsetImplemented(bits: bv64, d: bv64)
    requires Implemented(bits)
    ensures Implemented(bits & d) && Implemented(bits & !d)
  {
  }

  /** The choice the Privileged ISA prescribes: machine-level interrupts first, each level as its enable says. */
  function Prescribed(priv: Priv, mie: bool, sie: bool, bits: bv64, mideleg: bv64): Option<nat> {
    if bits & !mideleg != 0 && (priv != M || mie) then Some(IntCode(bits & !mideleg))
    else if bits & mideleg != 0 && (priv == U || (priv == S && sie)) then Some(IntCode(bits & mideleg))
    else None
  }

  /** Sets for which the choice and the prescription agree. */
  predicate Agreed(priv: Priv, sie: bool, bits: bv64, mideleg: bv64) {
    || priv == M || bits & !mideleg == 0 || bits & mideleg == 0
    || ((priv == U || sie) && IntCode(bits) < 64 && !Bit(mideleg, IntCode(bits)))
  }

  lemma ChoiceExactly(priv: Priv, mie: bool, sie: bool, bits: bv64, d: bv64)
    requires Implemented(bits) && priv != H
    ensures ChooseInterrupt(priv, mie, sie, bits, d) == Prescribed(priv, mie, sie, bits, d)
            <==> Agreed(priv, sie, bits, d)
  {
    hide Bit, IntCode, Implemented;
    Partition(bits, d);
    SubsetImplemented(bits, d);
    SomeInterrupt(bits);
    SomeInterrupt(bits & d);
    SomeInterrupt(bits & !d);
    if bits != 0 {
      ChoiceWithout(bits, d);
    }
  }

  /** What is considered: in machine mode only the interrupts that are not delegated. */
  function Considered(priv: Priv, bits: bv64, mideleg: bv64): bv64 {
    if priv == M then bits & !mideleg else bits
  }

  /** A chosen interrupt comes first among those considered, and each level's enable is respected. */
  lemma ChosenIsFirst(priv: Priv, mie: bool, sie: bool, bits: bv64, d: bv64)
    requires Implemented(bits)
    ensures var chosen := ChooseInterrupt(priv, mie, sie, bits, d);
            chosen.Some? ==>
              && FirstOf(Considered(priv, bits, d), chosen.value) && chosen.value < 64 && chosen.value in ORDER
              && Bit(bits, chosen.value)
              && (priv == M ==> mie && !Bit(d, chosen.value))
              && (Bit(d, chosen.value) ==> priv != M && (priv == S ==> sie))
  {
    hide Bit, IntCode, Implemented, FirstOf;
    OrderHolds(Considered(priv, bits, d));
    Partition(bits, d);
    SubsetImplemented(bits, d);
    SomeInterrupt(bits);
    SomeInterrupt(bits & !d);
    IntCodeIsFirst(Considered(priv, bits, d));
    if priv == M {
      if bits & !d != 0 {
        ChosenIsKept(bits, d);
      }
    } else if bits != 0 {
      FirstIsIn(bits);
      if bits & d == 0 {
        CodeIsSet(bits, d);
      }
    }
  }

  lemma OrderHolds(bits: bv64)
    ensures IntCode(bits) != NO_INT ==> IntCode(bits) in ORDER && IntCode(bits) < 64
    ensures NO_INT !in ORDER
  {
    hide Flag;
    assert ORDER[0] == 11 && ORDER[1] == 3 && ORDER[2] == 7 && ORDER[3] == 9 && ORDER[4] == 1 && ORDER[5] == 5;
  }

  lemma FirstIsIn(bits: bv64)
    requires IntCode(bits) != NO_INT
    ensures Bit(bits, IntCode(bits))
  {
    hide Flag, Bit;
    BitIsFlag(bits);
  }

  lemma PendingImplemented(c: Core)
    requires CoreOk(c)
    ensures Implemented(PendingBits(c.csrs))
  {
    hide StatusOk, VectorOk, ModeOk;
  }

  /**
   * In every reachable state an interrupt that is taken is pending and enabled and first in the
   * order of precedence; machine mode takes it only with MIE set and undelegated, and one routed
   * to supervisor mode is taken there only with SIE set.
   */
  lemma TakenInterrupt(c: Core, code: nat)
    requires CoreOk(c) && Interrupt(c) == Some(code)
    ensures code < 64 && code in ORDER && FirstOf(Considered(c.priv, PendingBits(c.csrs), c.csrs.mideleg), code)
    ensures Bit(c.csrs.mip, code) && Bit(c.csrs.mie, code)
    ensures c.priv == M ==> Flag(c.csrs.status, MIE) && !Bit(c.csrs.mideleg, code)
    ensures Delegated(c, code, true) ==> c.priv != M && (c.priv == S ==> Flag(c.csrs.status, SIE))
  {
    hide CoreOk, Flag, Bit, FirstOf, ChooseInterrupt, Implemented, Considered, PendingBits;
    PendingImplemented(c);
    ChosenIsFirst(c.priv, Flag(c.csrs.status, MIE), Flag(c.csrs.status, SIE), PendingBits(c.csrs), c.csrs.mideleg);
    PendingIsBoth(c, code);
  }

  lemma BothAreSet(a: bv64, b: bv64, code: nat)
    requires code in ORDER && Bit(a & b, code)
    ensures Bit(a, code) && Bit(b, code)
  {
    hide Flag, Bit;
    FlagsOfBoth(a, b);
    BitIsFlag(a & b);
    BitIsFlag(a);
    BitIsFlag(b);
  }

  lemma PendingIsBoth(c: Core, code: nat)
    requires code in ORDER && Bit(PendingBits(c.csrs), code)
    ensures Bit(c.csrs.mip, code) && Bit(c.csrs.mie, code)
  {
    hide Bit;
    BothAreSet(c.csrs.mip, c.csrs.mie, code);
  }

  /** In every reachable state, the emulator takes the prescribed interrupt if and only if the sets agree. */
  lemma TakesPrescribedExactly(c: Core)
    requires CoreOk(c) && c.priv != H
    ensures var mie, sie, bits := Flag(c.csrs.status, MIE), Flag(c.csrs.status, SIE), PendingBits(c.csrs);
            Interrupt(c) == Prescribed(c.priv, mie, sie, bits, c.csrs.mideleg)
            <==> Agreed(c.priv, sie, bits, c.csrs.mideleg)
  {
    hide CoreOk, Flag, ChooseInterrupt, Prescribed, Agreed, Implemented, PendingBits;
    PendingImplemented(c);
    ChoiceExactly(c.priv, Flag(c.csrs.status, MIE), Flag(c.csrs.status, SIE), PendingBits(c.csrs), c.csrs.mideleg);
  }

  lemma InterruptHasCause(c: Core)
    requires CoreOk(c)
    ensures Interrupt(c) != Some(NO_INT)
  {
    hide CsrsOk, Flag, Bit, FirstOf, Interrupt, Considered, Delegated;
    OrderHolds(0);
    if Interrupt(c) == Some(NO_INT) {
      TakenInterrupt(c, NO_INT);
    }
  }

  /** For one: with SIE clear, a delegated software interrupt hides the machine timer from supervisor mode. */
  lemma TimerHidden()
    ensures ChooseInterrupt(S, true, false, 0x82, S_INT_MASK) == None
    ensures Prescribed(S, true, false, 0x82, S_INT_MASK) == Some(7)
  {
  }
}
