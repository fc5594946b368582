/**
 * The interrupt controller in the emulator's main loop: each round computes every context's
 * claim anew and then lets the hart make at most one register access.
 */
module PlicRuns {
  import opened Plic

  // ----- What a tick offers

  lemma {:induction false} BestIgnoresClaims(s: State, t: State, c: nat, end: nat)
    requires 1 <= end <= |s.priority| <= WORD && c < |s.enable| == |s.threshold|
    requires t == s.(claim := t.claim)
    ensures Best(t, c, end) == Best(s, c, end)
    decreases end
  {
    if end > 1 {
      BestIgnoresClaims(s, t, c, end - 1);
    }
  }

  lemma {:induction false} TickUpToOffers(s: State, sources: SourceCount, end: nat)
    requires Shaped(s, sources, |s.claim|) && end <= |s.claim|
    ensures var t := TickUpTo(s, sources, end);
            && t == s.(claim := t.claim) && |t.claim| == |s.claim|
            && (forall c :: 0 <= c < end ==> t.claim[c] == Best(s, c, sources + 1))
            && forall c :: end <= c < |s.claim| ==> t.claim[c] == s.claim[c]
    decreases end
  {
    if end > 0 {
      TickUpToOffers(s, sources, end - 1);
      BestIgnoresClaims(s, TickUpTo(s, sources, end - 1), end - 1, sources + 1);
    }
  }

  /**
   * After a tick each context is offered the lowest-numbered of its candidates of highest
   * priority, or nothing when it has no candidate; a tick changes nothing else.
   */
  lemma TickOffers(s: State, sources: SourceCount, c: nat)
    requires Shaped(s, sources, |s.claim|) && c < |s.claim|
    ensures var t := Tick(s, sources);
            && t == s.(claim := t.claim) && |t.claim| == |s.claim|
            && (t.claim[c] == 0 <==> forall i :: 1 <= i <= sources ==> !Candidate(s, c, i))
            && (t.claim[c] != 0 ==>
                  && Candidate(s, c, t.claim[c])
                  && forall i :: 1 <= i <= sources && Candidate(s, c, i) ==>
                       || s.priority[i] < s.priority[t.claim[c]]
                       || (s.priority[i] == s.priority[t.claim[c]] && t.claim[c] <= i))
  {
    TickUpToOffers(s, sources, |s.claim|);
    BestIsFirstOfHighest(s, c, sources + 1);
  }

  // ----- Rounds

  datatype Access = NoAccess | LoadFrom(addr: nat) | StoreTo(addr: nat, data: nat)

  /** Sources fire before and after the tick; then comes the access. */
  datatype Round = Round(early: seq<nat>, late: seq<nat>, access: Access)

  /** Sources have a bit each, and the access stays inside the controller. */
  predicate Legal(round: Round, sources: SourceCount, contexts: nat) {
    && (forall i :: 0 <= i < |round.early| ==> round.early[i] < WORD)
    && (forall i :: 0 <= i < |round.late| ==> round.late[i] < WORD)
    && match round.access
       case NoAccess => true
       case LoadFrom(addr) => !Decode(addr, sources, contexts).Outside?
       case StoreTo(addr, data) => MayStore(addr, data, sources, contexts)
  }

  function FireAll(s: State, fired: seq<nat>): (s': State)
    requires forall i :: 0 <= i < |fired| ==> fired[i] < WORD
    ensures s' == s.(pending := s'.pending)
    decreases |fired|
  {
    if fired == [] then s else FireAll(Fire(s, fired[0], true), fired[1..])
  }

  /** The state in which the round's access is made. */
  function Ready(s: State, sources: SourceCount, round: Round): (s': State)
    requires Shaped(s, sources, |s.claim|) && Legal(round, sources, |s.claim|)
    ensures Shaped(s', sources, |s.claim|)
  {
    FireAll(Tick(FireAll(s, round.early), sources), round.late)
  }

  function Play(s: State, sources: SourceCount, round: Round): (s': State)
    requires Shaped(s, sources, |s.claim|) && Legal(round, sources, |s.claim|)
    ensures Shaped(s', sources, |s.claim|)
  {
    var ready := Ready(s, sources, round);
    match round.access
    case NoAccess => ready
    case LoadFrom(addr) => LoadAt(ready, sources, addr).0
    case StoreTo(addr, data) => StoreAt(ready, sources, addr, data).0
  }

  ghost predicate AllLegal(rounds: seq<Round>, sources: SourceCount, contexts: nat) {
    forall i :: 0 <= i < |rounds| ==> Legal(rounds[i], sources, contexts)
  }

  ghost function At(s: State, sources: SourceCount, rounds: seq<Round>, i: nat): (s': State)
    requires Shaped(s, sources, |s.claim|) && AllLegal(rounds, sources, |s.claim|) && i <= |rounds|
    ensures Shaped(s', sources, |s.claim|)
  {
    if i == 0 then s else Play(At(s, sources, rounds, i - 1), sources, rounds[i - 1])
  }

  predicate IsClaim(addr: nat, sources: SourceCount, contexts: nat) {
    var t := Decode(addr, sources, contexts);
    t.At? && t.r.Claim?
  }

  /** The source a round's access claims, or 0. */
  function Granted(s: State, sources: SourceCount, round: Round): nat
    requires Shaped(s, sources, |s.claim|) && Legal(round, sources, |s.claim|)
  {
    if round.access.LoadFrom? && IsClaim(round.access.addr, sources, |s.claim|)
    then LoadAt(Ready(s, sources, round), sources, round.access.addr).1.data.value else 0
  }

  predicate Completes(round: Round, sources: SourceCount, contexts: nat, source: nat) {
    round.access.StoreTo? && IsClaim(round.access.addr, sources, contexts) && round.access.data == source
  }

  // ----- Exclusion

  /** A source is granted only while it is not claimed, and is claimed from then on. */
  lemma GrantClaims(s: State, sources: SourceCount, round: Round)
    requires Shaped(s, sources, |s.claim|) && Legal(round, sources, |s.claim|)
    ensures var source := Granted(s, sources, round);
            source != 0 ==> source <= sources && !s.claimed[source] && Play(s, sources, round).claimed[source]
  {
    if Granted(s, sources, round) != 0 {
      TickOffers(FireAll(s, round.early), sources, Decode(round.access.addr, sources, |s.claim|).r.c);
    }
  }

  lemma StaysClaimed(s: State, sources: SourceCount, round: Round, source: nat)
    requires Shaped(s, sources, |s.claim|) && Legal(round, sources, |s.claim|)
    requires source < WORD && s.claimed[source] && !Completes(round, sources, |s.claim|, source)
    ensures Play(s, sources, round).claimed[source]
  {
    TickUpToOffers(FireAll(s, round.early), sources, |s.claim|);
  }

  lemma {:induction false} ClaimedUntilCompleted(s: State, sources: SourceCount, rounds: seq<Round>,
                                                 i: nat, j: nat, source: nat)
    requires Shaped(s, sources, |s.claim|) && AllLegal(rounds, sources, |s.claim|) && i <= j <= |rounds|
    requires source < WORD && At(s, sources, rounds, i).claimed[source]
    requires forall k :: i <= k < j ==> !Completes(rounds[k], sources, |s.claim|, source)
    ensures At(s, sources, rounds, j).claimed[source]
    decreases j - i
  {
    hide Play, Legal, Completes;
    if i < j {
      ClaimedUntilCompleted(s, sources, rounds, i, j - 1, source);
      StaysClaimed(At(s, sources, rounds, j - 1), sources, rounds[j - 1], source);
    }
  }

  lemma GrantedThenClaimed(s: State, sources: SourceCount, rounds: seq<Round>, i: nat, source: nat)
    requires Shaped(s, sources, |s.claim|) && AllLegal(rounds, sources, |s.claim|) && i < |rounds|
    requires source != 0 && Granted(At(s, sources, rounds, i), sources, rounds[i]) == source
    ensures source < WORD && !At(s, sources, rounds, i).claimed[source] && At(s, sources, rounds, i + 1).claimed[source]
  {
    GrantClaims(At(s, sources, rounds, i), sources, rounds[i]);
  }

  /**
   * Over every run of rounds no source is granted twice, to any contexts, without a completion
   * of it in a round between.
   */
  lemma GrantsAreExclusive(s: State, sources: SourceCount, rounds: seq<Round>, i: nat, j: nat, source: nat)
    requires Shaped(s, sources, |s.claim|) && AllLegal(rounds, sources, |s.claim|) && i < j < |rounds|
    requires source != 0
    requires Granted(At(s, sources, rounds, i), sources, rounds[i]) == source
    requires Granted(At(s, sources, rounds, j), sources, rounds[j]) == source
    ensures exists k :: i < k < j && Completes(rounds[k], sources, |s.claim|, source)
  {
    hide Play, Granted, Completes, Legal, At;
    GrantedThenClaimed(s, sources, rounds, i, source);
    GrantedThenClaimed(s, sources, rounds, j, source);
    if forall k :: i + 1 <= k < j ==> !Completes(rounds[k], sources, |s.claim|, source) {
      ClaimedUntilCompleted(s, sources, rounds, i + 1, j, source);
    }
  }

  /** Claims are refreshed only by a tick: two reads without one between grant the same source twice. */
  lemma SecondReadIsStale(s: State, sources: SourceCount, addr: nat)
    requires Shaped(s, sources, |s.claim|) && IsClaim(addr, sources, |s.claim|)
    ensures var (once, first) := LoadAt(Tick(s, sources), sources, addr);
            LoadAt(once, sources, addr).1 == first
  {
  }
}
