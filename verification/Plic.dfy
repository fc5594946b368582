/**
 * The platform-level interrupt controller with at most 31 sources: one word of pending bits, one
 * of claimed bits and one of enable bits for each context.  A word is the sequence of its bits.
 */
module Plic {
  import opened Words

  const WORD := 32

  type SourceCount = n: nat | n < WORD
  type Bits32 = s: seq<bool> | |s| == WORD witness seq(WORD, _ => false)

  datatype State = State(priority: seq<nat>, pending: Bits32, enable: seq<Bits32>, threshold: seq<nat>,
                         claim: seq<nat>, claimed: Bits32)

  predicate Shaped(s: State, sources: SourceCount, contexts: nat) {
    && |s.priority| == sources + 1
    && |s.enable| == |s.threshold| == |s.claim| == contexts
    && forall c :: 0 <= c < contexts ==> s.claim[c] <= sources
  }

  // ----- Selection

  /** The tests of the scan, but for the comparison with the best so far. */
  predicate Eligible(s: State, c: nat, i: nat)
    requires i < |s.priority| <= WORD && c < |s.enable| == |s.threshold|
  {
    s.priority[i] >= s.threshold[c] && s.pending[i] && s.enable[c][i] && !s.claimed[i]
  }

  /** The best of the sources below `end`: the first of highest priority, or 0. */
  function Best(s: State, c: nat, end: nat): (best: nat)
    requires 1 <= end <= |s.priority| <= WORD && c < |s.enable| == |s.threshold|
    ensures best < end
  {
    if end == 1 then 0 else
    var best := Best(s, c, end - 1);
    var i := end - 1;
    if Eligible(s, c, i) && s.priority[i] > (if best == 0 then 0 else s.priority[best]) then i else best
  }

  /** A candidate for a claim: eligible, with a priority that is not zero. */
  predicate Candidate(s: State, c: nat, i: nat)
    requires |s.priority| <= WORD && c < |s.enable| == |s.threshold|
  {
    1 <= i < |s.priority| && Eligible(s, c, i) && s.priority[i] > 0
  }

  /**
   * The source offered is the lowest-numbered candidate of the highest priority, and there is
   * none exactly when there is no candidate.
   */
  lemma {:induction false} BestIsFirstOfHighest(s: State, c: nat, end: nat)
    requires 1 <= end <= |s.priority| <= WORD && c < |s.enable| == |s.threshold|
    ensures var best := Best(s, c, end);
            && (best == 0 <==> forall i :: 1 <= i < end ==> !Candidate(s, c, i))
            && (best != 0 ==>
                  && Candidate(s, c, best)
                  && forall i :: 1 <= i < end && Candidate(s, c, i) ==>
                       s.priority[i] < s.priority[best] || (s.priority[i] == s.priority[best] && best <= i))
    decreases end
  {
    if end > 1 {
      BestIsFirstOfHighest(s, c, end - 1);
      var last := end - 1;
      assert Candidate(s, c, last) <==> Eligible(s, c, last) && s.priority[last] > 0;
    }
  }

  /** What the architecture offers: a candidate above the threshold, not only at it. */
  predicate StrictCandidate(s: State, c: nat, i: nat)
    requires |s.priority| <= WORD && c < |s.enable| == |s.threshold|
  {
    Candidate(s, c, i) && s.priority[i] > s.threshold[c]
  }

  /** The offer is the first of the highest of these, and none exactly when there are none. */
  predicate OfferedStrictly(s: State, c: nat, end: nat, best: nat)
    requires end <= |s.priority| <= WORD && c < |s.enable| == |s.threshold|
  {
    && (best == 0 <==> forall i :: 1 <= i < end ==> !StrictCandidate(s, c, i))
    && (best != 0 ==>
          && StrictCandidate(s, c, best)
          && forall i :: 1 <= i < end && StrictCandidate(s, c, i) ==>
               s.priority[i] < s.priority[best] || (s.priority[i] == s.priority[best] && best <= i))
  }

  /** Comparing by >= offers what the architecture would unless the best candidate is just at the threshold. */
  lemma ThresholdExactly(s: State, c: nat, end: nat)
    requires 1 <= end <= |s.priority| <= WORD && c < |s.enable| == |s.threshold|
    ensures var best := Best(s, c, end);
            OfferedStrictly(s, c, end, best) <==> best == 0 || s.priority[best] > s.threshold[c]
  {
    hide Best, Candidate;
    BestIsFirstOfHighest(s, c, end);
    var best := Best(s, c, end);
    if best == 0 {
      assert forall i :: 1 <= i < end ==> !Candidate(s, c, i);
    } else if s.priority[best] > s.threshold[c] {
      assert StrictCandidate(s, c, best);
      assert forall i :: StrictCandidate(s, c, i) ==> Candidate(s, c, i);
    } else {
      assert !StrictCandidate(s, c, best);
    }
  }

  // ----- Operations

  function Offer(s: State, sources: SourceCount, c: nat): (s': State)
    requires Shaped(s, sources, |s.claim|) && c < |s.claim|
    ensures Shaped(s', sources, |s.claim|)
  {
    s.(claim := s.claim[c := Best(s, c, sources + 1)])
  }

  /** Every context's claim is computed anew, lowest first, up to `end`. */
  function TickUpTo(s: State, sources: SourceCount, end: nat): (s': State)
    requires Shaped(s, sources, |s.claim|) && end <= |s.claim|
    ensures Shaped(s', sources, |s.claim|)
  {
    if end == 0 then s else Offer(TickUpTo(s, sources, end - 1), sources, end - 1)
  }

  function Tick(s: State, sources: SourceCount): (s': State)
    requires Shaped(s, sources, |s.claim|)
    ensures Shaped(s', sources, |s.claim|)
  {
    TickUpTo(s, sources, |s.claim|)
  }

  function Fire(s: State, source: nat, fired: bool): State
    requires source < WORD
  {
    if fired then s.(pending := s.pending[source := true]) else s
  }

  function Digit(x: nat, k: nat): bool {
    x / Exp2(k) % 2 == 1
  }

  /** The low 32 bits of a number. */
  function WordBits(x: nat): Bits32 {
    seq(WORD, k requires 0 <= k < WORD => Digit(x, k))
  }

  /** Number whose bits from `k` on are those of the word. */
  function BitsValue(bits: Bits32, k: nat): nat
    requires k <= WORD
    decreases WORD - k
  {
    if k == WORD then 0 else (if bits[k] then 1 else 0) + 2 * BitsValue(bits, k + 1)
  }

  /** The registers of a context or source that exists. */
  datatype Register = Priority(i: nat) | Pending | Enable(c: nat) | Threshold(c: nat) | Claim(c: nat)

  predicate Exists(r: Register, sources: SourceCount, contexts: nat) {
    match r
    case Priority(i) => i <= sources
    case Pending => true
    case Enable(c) => c < contexts
    case Threshold(c) => c < contexts
    case Claim(c) => c < contexts
  }

  function Address(r: Register): nat {
    match r
    case Priority(i) => 4 * i
    case Pending => 0x1000
    case Enable(c) => 0x2000 + 0x80 * c
    case Threshold(c) => 0x20_0000 + 0x1000 * c
    case Claim(c) => 0x20_0000 + 0x1000 * c + 4
  }

  function Read(s: State, sources: SourceCount, r: Register): (State, nat)
    requires Shaped(s, sources, |s.claim|) && Exists(r, sources, |s.claim|)
  {
    match r
    case Priority(i) => (s, s.priority[i])
    case Pending => (s, BitsValue(s.pending, 0))
    case Enable(c) => (s, BitsValue(s.enable[c], 0))
    case Threshold(c) => (s, s.threshold[c])
    case Claim(c) => (s.(claimed := s.claimed[s.claim[c] := true]), s.claim[c])
  }

  /** A completion names its source; the data of the other registers is the word written. */
  function Write(s: State, sources: SourceCount, r: Register, data: nat): State
    requires Shaped(s, sources, |s.claim|) && Exists(r, sources, |s.claim|) && (r.Claim? ==> data < WORD)
  {
    match r
    case Priority(i) => s.(priority := s.priority[i := data])
    case Pending => s
    case Enable(c) => s.(enable := s.enable[c := WordBits(data)])
    case Threshold(c) => s.(threshold := s.threshold[c := data])
    case Claim(c) => s.(claimed := s.claimed[data := false], pending := s.pending[data := false])
  }

  // ----- Accesses by address

  /**
   * What four bytes at an address are: a register; nothing, which is reported as success; nothing,
   * which is reported as out of range; or something outside the arrays of the controller.
   */
  datatype Target = At(r: Register) | Ignored | Refused | Outside

  function Decode(addr: nat, sources: SourceCount, contexts: nat): (t: Target)
    ensures t.At? ==> Exists(t.r, sources, contexts)
  {
    var a := addr % 0x400_0000;
    if a + 4 <= 0x1000 then
      if a == 0 || a > 4 * sources || a + 4 > 4 * (sources + 1) then Ignored else At(Priority(a / 4))
    else if a + 4 <= 0x1080 then
      if a < 0x1000 || (a - 0x1000) / 4 > sources then Ignored
      else if (a - 0x1000) / 4 == 0 then At(Pending) else Outside
    else if a + 4 <= 0x2000 then Refused
    else if a + 4 <= 0x20_0000 then
      if a < 0x2000 || (a - 0x2000) / 0x80 >= contexts || a % 0x80 > sources then Ignored
      else if a % 0x80 == 0 then At(Enable((a - 0x2000) / 0x80)) else Outside
    else if a < 0x20_0000 || (a - 0x20_0000) / 0x1000 > contexts then Ignored
    else if a % 0x1000 != 0 && a % 0x1000 != 4 then Refused
    else if (a - 0x20_0000) / 0x1000 == contexts then Outside
    else if a % 0x1000 == 0 then At(Threshold((a - 0x20_0000) / 0x1000))
    else At(Claim((a - 0x20_0000) / 0x1000))
  }

  /** Few enough contexts that the regions of the register space do not run into each other. */
  type ContextCount = n: nat | n <= 0x3e00

  /**
   * Each register is at its own address, in every image of the register space, and at no other
   * aligned one; source 0 has no priority register.
   */
  lemma DecodesAddress(r: Register, sources: SourceCount, contexts: ContextCount, addr: nat)
    requires addr % 4 == 0
    ensures Decode(addr, sources, contexts) == At(r)
            <==> Exists(r, sources, contexts) && r != Priority(0) && addr % 0x400_0000 == Address(r)
  {
    var a := addr % 0x400_0000;
    assert a % 4 == 0;
    match r
    case Priority(i) =>
    case Pending =>
    case Enable(c) => if a == Address(r) { DivModUnique(a - 0x2000, 0x80, c, 0); }
    case Threshold(c) => if a == Address(r) { DivModUnique(a - 0x20_0000, 0x1000, c, 0); }
    case Claim(c) => if a == Address(r) { DivModUnique(a - 0x20_0000, 0x1000, c, 4); }
  }

  /** Whether the bus is told that the access succeeded, and what it reads, if it reads anything. */
  datatype Reply = Reply(ok: bool, data: Option<nat>)

  /**
   * Completions name a source that has a bit, and what lies outside the arrays is not accessed,
   * which a store to the words of pending bits never does.
   */
  predicate MayStore(addr: nat, data: nat, sources: SourceCount, contexts: nat) {
    var t := Decode(addr, sources, contexts);
    (t.Outside? ==> addr % 0x400_0000 + 4 <= 0x1080) && (t.At? && t.r.Claim? ==> data < WORD)
  }

  function LoadAt(s: State, sources: SourceCount, addr: nat): (r: (State, Reply))
    requires Shaped(s, sources, |s.claim|) && !Decode(addr, sources, |s.claim|).Outside?
    ensures Shaped(r.0, sources, |s.claim|)
  {
    match Decode(addr, sources, |s.claim|)
    case At(r) => var (s', data) := Read(s, sources, r); (s', Reply(true, Some(data)))
    case Refused => (s, Reply(false, None))
    case _ => (s, Reply(true, None))
  }

  function StoreAt(s: State, sources: SourceCount, addr: nat, data: nat): (r: (State, bool))
    requires Shaped(s, sources, |s.claim|) && MayStore(addr, data, sources, |s.claim|)
    ensures Shaped(r.0, sources, |s.claim|)
  {
    match Decode(addr, sources, |s.claim|)
    case At(r) => (Write(s, sources, r, data), true)
    case Refused => (s, false)
    case _ => (s, true)
  }

  /** An address for the register within the region of its kind. */
  predicate InSpace(r: Register) {
    Address(r) + 4 <= match r
                      case Priority(_) => 0x1000
                      case Pending => 0x1080
                      case Enable(_) => 0x20_0000
                      case _ => 0x400_0000
  }

  lemma MissingRegister(r: Register, sources: SourceCount, contexts: ContextCount, addr: nat)
    requires InSpace(r) && !Exists(r, sources, contexts) && addr % 0x400_0000 == Address(r)
    ensures Decode(addr, sources, contexts) ==
            if r == Threshold(contexts) || r == Claim(contexts) then Outside else Ignored
  {
    match r
    case Priority(i) =>
    case Pending =>
    case Enable(c) => DivModUnique(Address(r) - 0x2000, 0x80, c, 0);
    case Threshold(c) => DivModUnique(Address(r) - 0x20_0000, 0x1000, c, 0);
    case Claim(c) => DivModUnique(Address(r) - 0x20_0000, 0x1000, c, 4);
  }

  /**
   * An access to a register of a source or context that does not exist is reported as successful
   * and does nothing, except at the context after the last, where the code leaves its arrays.
   */
  lemma MissingIsIgnored(s: State, sources: SourceCount, r: Register, addr: nat, data: nat)
    requires Shaped(s, sources, |s.claim|) && |s.claim| <= 0x3e00
    requires InSpace(r) && !Exists(r, sources, |s.claim|) && addr % 0x400_0000 == Address(r)
    ensures Decode(addr, sources, |s.claim|).Outside? <==> r == Threshold(|s.claim|) || r == Claim(|s.claim|)
    ensures !Decode(addr, sources, |s.claim|).Outside? ==>
              && LoadAt(s, sources, addr) == (s, Reply(true, None))
              && MayStore(addr, data, sources, |s.claim|) && StoreAt(s, sources, addr, data) == (s, true)
  {
    hide Decode;
    MissingRegister(r, sources, |s.claim|, addr);
  }

  class Controller {
    const sources: SourceCount
    const contexts: ContextCount
    const priority: array<nat>
    const pending: array<bool>
    const claimed: array<bool>
    const enable: array<Bits32>
    const threshold: array<nat>
    const claim: array<nat>

    ghost predicate Valid()
      reads this, claim
    {
      && priority.Length == sources + 1 && pending.Length == claimed.Length == WORD && pending != claimed
      && enable.Length == threshold.Length == claim.Length == contexts
      && priority != threshold && priority != claim && threshold != claim
      && forall c :: 0 <= c < contexts ==> claim[c] <= sources
    }

    ghost function Value(): State
      reads this, priority, pending, claimed, enable, threshold, claim
      requires Valid()
    {
      State(priority[..], pending[..], enable[..], threshold[..], claim[..], claimed[..])
    }

    constructor (sources: SourceCount, contexts: ContextCount)
      ensures Valid() && this.sources == sources && this.contexts == contexts
      ensures fresh(priority) && fresh(pending) && fresh(claimed) && fresh(enable) && fresh(threshold) && fresh(claim)
      ensures Value() == Initial(sources, contexts)
    {
      this.sources, this.contexts := sources, contexts;
      priority := new nat[sources + 1](_ => 0);
      pending := new bool[WORD](_ => false);
      claimed := new bool[WORD](_ => false);
      enable := new Bits32[contexts](_ => seq(WORD, _ => false));
      threshold := new nat[contexts](_ => 0);
      claim := new nat[contexts](_ => 0);
      new;
      assert Value() == Initial(sources, contexts);
    }

    method SetInt(source: nat, fired: bool)
      requires Valid() && source < WORD
      modifies pending
      ensures Valid() && Value() == Fire(old(Value()), source, fired)
    {
      if fired {
        pending[source] := true;
      }
    }

    /** Scans the sources for the best candidate of a context, and offers it. */
    method GetInt(c: nat) returns (interrupt: bool)
      requires Valid() && c < contexts
      modifies claim
      ensures Valid() && Value() == Offer(old(Value()), sources, c) && interrupt == (Value().claim[c] != 0)
    {
      var maxPriority, maxInterrupt := 0, 0;
      var i := 1;
      while i <= sources
        invariant 1 <= i <= sources + 1 && maxInterrupt == Best(Value(), c, i)
        invariant maxPriority == if maxInterrupt == 0 then 0 else priority[maxInterrupt]
      {
        if priority[i] >= threshold[c] && pending[i] && enable[c][i] && !claimed[i] {
          if priority[i] > maxPriority {
            maxPriority, maxInterrupt := priority[i], i;
          }
        }
        i := i + 1;
      }
      claim[c] := maxInterrupt;
      interrupt := maxInterrupt != 0;
    }

    /** The interrupt line of every context. */
    method DoTick() returns (lines: seq<bool>)
      requires Valid()
      modifies claim
      ensures Valid() && Value() == Tick(old(Value()), sources)
      ensures |lines| == contexts && forall c :: 0 <= c < contexts ==> lines[c] == (Value().claim[c] != 0)
    {
      lines := [];
      var c := 0;
      while c < contexts
        invariant 0 <= c <= contexts && Valid() && Value() == TickUpTo(old(Value()), sources, c)
        invariant |lines| == c && forall k :: 0 <= k < c ==> lines[k] == (claim[k] != 0)
      {
        var interrupt := GetInt(c);
        lines := lines + [interrupt];
        c := c + 1;
      }
    }

    method Load(addr: nat) returns (ok: bool, data: Option<nat>)
      requires Valid() && !Decode(addr, sources, contexts).Outside?
      modifies claimed
      ensures Valid() && (Value(), Reply(ok, data)) == LoadAt(old(Value()), sources, addr)
    {
      var a := addr % 0x400_0000;
      ok, data := true, None;
      if a + 4 <= 0x1000 {
        if a != 0 && a <= 4 * sources && a + 4 <= 4 * (sources + 1) {
          data := Some(priority[a / 4]);
        }
      } else if a + 4 <= 0x1080 {
        if a >= 0x1000 && (a - 0x1000) / 4 <= sources {
          data := Some(BitsValue(pending[..], 0));
        }
      } else if a + 4 <= 0x2000 {
        ok := false;
      } else if a + 4 <= 0x20_0000 {
        if a >= 0x2000 && (a - 0x2000) / 0x80 < contexts && a % 0x80 <= sources {
          data := Some(BitsValue(enable[(a - 0x2000) / 0x80], 0));
        }
      } else if a >= 0x20_0000 && (a - 0x20_0000) / 0x1000 <= contexts {
        var c, offset := (a - 0x20_0000) / 0x1000, a % 0x1000;
        if offset == 0 {
          data := Some(threshold[c]);
        } else if offset == 4 {
          data := Some(claim[c]);
          claimed[claim[c]] := true;
        } else {
          ok := false;
        }
      }
    }

    method Store(addr: nat, data: nat) returns (ok: bool)
      requires Valid() && MayStore(addr, data, sources, contexts)
      modifies priority, pending, claimed, enable, threshold
      ensures Valid() && (Value(), ok) == StoreAt(old(Value()), sources, addr, data)
    {
      var a := addr % 0x400_0000;
      ok := true;
      if a + 4 <= 0x1000 {
        if a != 0 && a <= 4 * sources && a + 4 <= 4 * (sources + 1) {
          priority[a / 4] := data;
        }
      } else if a + 4 <= 0x1080 {
      } else if a + 4 <= 0x2000 {
        ok := false;
      } else if a + 4 <= 0x20_0000 {
        if a >= 0x2000 && (a - 0x2000) / 0x80 < contexts && a % 0x80 <= sources {
          enable[(a - 0x2000) / 0x80] := WordBits(data);
        }
      } else if a >= 0x20_0000 && (a - 0x20_0000) / 0x1000 <= contexts {
        var c, offset := (a - 0x20_0000) / 0x1000, a % 0x1000;
        if offset == 0 {
          threshold[c] := data;
        } else if offset == 4 {
          claimed[data] := false;
          pending[data] := false;
        } else {
          ok := false;
        }
      }
    }
  }

  function Initial(sources: SourceCount, contexts: nat): State {
    State(seq(sources + 1, _ => 0), seq(WORD, _ => false), seq(contexts, _ => seq(WORD, _ => false)),
          seq(contexts, _ => 0), seq(contexts, _ => 0), seq(WORD, _ => false))
  }
}
