/** The journal over every history of claims, launches, epoch sweeps and failed calls. */
module JournalHistory {
  import opened Hashing
  import opened Journal
  import opened Phases

  // Rows are only ever added.
  predicate Grows(t: Tables, u: Tables) { t.epochs <= u.epochs && t.claims <= u.claims && t.events <= u.events }

  lemma EventAdded(events: seq<Event>, e: Event)
    requires DistinctEvents(events) && !HasEvent(events, e.claimHash) && !HashUsed(events, e.hash)
    ensures DistinctEvents(events + [e])
  {
  }

  lemma {:induction false} InsertsKeepDistinct(h: Hash, events: seq<Event>, pending: seq<Row>)
    ensures var r := InsertWaiting(h, events, pending);
            r.Some? ==> events <= r.value && (DistinctEvents(events) ==> DistinctEvents(r.value))
    decreases |pending|
  {
    hide DistinctEvents, HasEvent, HashUsed, WaitingEvent;
    if pending != [] {
      var e := WaitingEvent(h, pending[0]);
      if !HasEvent(events, e.claimHash) && !HashUsed(events, e.hash) {
        if DistinctEvents(events) {
          EventAdded(events, e);
        }
        InsertsKeepDistinct(h, events + [e], pending[1..]);
      }
    }
  }

  lemma SweepKeeps(b: Base, t: Tables, epoch: string)
    ensures Grows(t, Sweep(b.h, t, epoch)) && Sweep(b.h, t, epoch).claims == t.claims
    ensures DistinctEvents(t.events) ==> DistinctEvents(Sweep(b.h, t, epoch).events)
  {
    hide DistinctEvents, Pending, InsertWaiting;
    InsertsKeepDistinct(b.h, t.events, Pending(t.claims, t.events, epoch));
  }

  /** Every call only adds to the journal. */
  lemma ApplyGrows(b: Base, t: Tables, c: Call)
    ensures Grows(t, Apply(b, t, c))
  {
    hide ClaimOutcome, Sweep, HasEvent, HashUsed;
    if c.MarkPrior? {
      SweepKeeps(b, t, c.epoch);
    }
  }

  /** Every call keeps the journal tidy, whatever claim it is about. */
  lemma ApplyKeepsTidy(b: Base, t: Tables, c: Call)
    requires Tidy(b, t)
    ensures Tidy(b, Apply(b, t, c))
  {
    hide DistinctClaims, DistinctEvents, Made, ClaimOutcome, Sweep, HasEvent, HashUsed;
    match c
    case Boot(_, _) =>
    case TakeClaim(claim, e, eh) => ClaimKeepsTidy(b, t, claim, e, eh);
    case Launch(e) =>
      if !HasEvent(t.events, e.claimHash) && !HashUsed(t.events, e.hash) {
        EventAdded(t.events, e);
      }
    case MarkPrior(e) => SweepKeeps(b, t, e);
    case Failing =>
  }

  /** Nothing recorded is ever changed or removed: a longer history only adds rows. */
  lemma {:induction false} HistoriesGrow(b: Base, calls: seq<Call>, more: seq<Call>)
    ensures Grows(ApplyAll(b, EMPTY, calls), ApplyAll(b, EMPTY, calls + more))
    decreases |more|
  {
    hide Apply;
    if more == [] {
      assert calls + more == calls;
    } else {
      var front := calls + more[..|more| - 1];
      assert (calls + more)[..|calls + more| - 1] == front && (calls + more)[|calls + more| - 1] == more[|more| - 1];
      HistoriesGrow(b, calls, more[..|more| - 1]);
      ApplyGrows(b, ApplyAll(b, EMPTY, front), more[|more| - 1]);
    }
  }

  /** In every journal there is at most one claim per hash, id, phase and sequence of an attempt, at most one
      terminal event per claim, and every head is made of the claim's own hash and an earlier head. */
  lemma {:induction false} HistoriesAreTidy(b: Base, calls: seq<Call>)
    ensures Tidy(b, ApplyAll(b, EMPTY, calls))
    decreases |calls|
  {
    hide Apply, Tidy;
    if calls == [] {
      EmptyIsTidy(b);
    } else {
      HistoriesAreTidy(b, calls[..|calls| - 1]);
      ApplyKeepsTidy(b, ApplyAll(b, EMPTY, calls[..|calls| - 1]), calls[|calls| - 1]);
    }
  }

  lemma EmptyIsTidy(b: Base)
    ensures Tidy(b, EMPTY)
  {
  }

  ghost predicate AllAgreed(claims: seq<Row>) { forall x <- claims :: Agreed(x.claim) }

  lemma {:induction false} AgreedHistoriesChain(b: Base, calls: seq<Call>)
    requires AllAgreed(ApplyAll(b, EMPTY, calls).claims)
    ensures AllChained(b.h, ApplyAll(b, EMPTY, calls).claims)
    decreases |calls|
  {
    hide Agreed, Chained, Of, Apply, Tidy;
    if calls != [] {
      var front, c := calls[..|calls| - 1], calls[|calls| - 1];
      var t := ApplyAll(b, EMPTY, front);
      ApplyGrows(b, t, c);
      assert forall x <- t.claims :: x in ApplyAll(b, EMPTY, calls).claims;
      AgreedHistoriesChain(b, front);
      HistoriesAreTidy(b, front);
      StepChains(b, t, c);
    } else {
      EmptyChains(b.h);
    }
  }

  lemma EmptyChains(h: Hash)
    ensures AllChained(h, [])
  {
  }

  lemma StepChains(b: Base, t: Tables, c: Call)
    requires Tidy(b, t) && AllChained(b.h, t.claims) && AllAgreed(Apply(b, t, c).claims)
    ensures AllChained(b.h, Apply(b, t, c).claims)
  {
    hide Tidy, Chained, Of, Insertable, Find, PredecessorHead, HeadHash, PhaseBySequence;
    if c.TakeClaim? {
      var r := ClaimOutcome(b, t.claims, c.claim, c.epoch, c.epochHash);
      if r.Claimed? {
        assert r.row in Apply(b, t, c).claims && r.row.claim == c.claim;
        ClaimKeepsConsistent(b, t, c.claim, c.epoch, c.epochHash);
      }
    } else if c.MarkPrior? {
      SweepKeeps(b, t, c.epoch);
    }
  }

  /** Over every history, each attempt's claims are sequences 1..k with no gap and one per phase, each head the
      fold of the head hash over them, exactly when the phase of every recorded claim agrees with its sequence. */
  lemma HistoriesAreConsistentIff(b: Base, calls: seq<Call>)
    ensures Consistent(b, ApplyAll(b, EMPTY, calls)) <==> AllAgreed(ApplyAll(b, EMPTY, calls).claims)
  {
    hide Agreed, Chained, Of, ApplyAll, Tidy;
    var claims := ApplyAll(b, EMPTY, calls).claims;
    HistoriesAreTidy(b, calls);
    if AllAgreed(claims) {
      AgreedHistoriesChain(b, calls);
    }
    if AllChained(b.h, claims) {
      forall x <- claims ensures Agreed(x.claim) {
        ChainedRowsAgree(b.h, claims, x);
      }
    }
  }

  predicate AgreedCall(c: Call) { c.TakeClaim? ==> Agreed(c.claim) }

  /** In particular over every history that asks only for agreed claims, as the intent evaluation does. */
  lemma {:induction false} HistoriesAreConsistent(b: Base, calls: seq<Call>)
    requires forall c <- calls :: AgreedCall(c)
    ensures Consistent(b, ApplyAll(b, EMPTY, calls))
  {
    hide Consistent, Agreed, ApplyAll;
    OnlyAgreedClaims(b, calls);
    HistoriesAreConsistentIff(b, calls);
  }

  lemma {:induction false} OnlyAgreedClaims(b: Base, calls: seq<Call>)
    requires forall c <- calls :: AgreedCall(c)
    ensures AllAgreed(ApplyAll(b, EMPTY, calls).claims)
    decreases |calls|
  {
    hide Agreed, Insertable, Find, PredecessorHead, HeadHash, Sweep;
    if calls != [] {
      var front, c := calls[..|calls| - 1], calls[|calls| - 1];
      assert c in calls && forall x <- front :: x in calls;
      OnlyAgreedClaims(b, front);
      if c.MarkPrior? {
        SweepKeeps(b, ApplyAll(b, EMPTY, front), c.epoch);
      }
    }
  }

  /** The first terminal event of a claim is its only one, in every later journal. */
  lemma FirstEventStays(b: Base, calls: seq<Call>, more: seq<Call>, e: Event)
    requires e in ApplyAll(b, EMPTY, calls).events
    ensures var later := ApplyAll(b, EMPTY, calls + more).events;
            e in later && forall x <- later :: x.claimHash == e.claimHash ==> x == e
  {
    hide Apply, DistinctClaims, Made;
    HistoriesGrow(b, calls, more);
    HistoriesAreTidy(b, calls + more);
    OnlyEvent(ApplyAll(b, EMPTY, calls + more).events);
  }

  lemma OnlyEvent(events: seq<Event>)
    requires DistinctEvents(events)
    ensures forall x <- events, y <- events :: x.claimHash == y.claimHash ==> x == y
  {
  }

  lemma OneRowPerPhase(claims: seq<Row>, x: Row, y: Row)
    requires x in claims && y in claims && x.claim.attempt == y.claim.attempt && x.claim.phase == y.claim.phase
    requires DistinctClaims(claims)
    ensures x == y
  {
    var i :| 0 <= i < |claims| && claims[i] == x;
    var j :| 0 <= j < |claims| && claims[j] == y;
  }

  /** At most once: whatever happens after a claim was taken, taking it again returns the row written the
      first time and changes nothing, in whichever epoch it is asked for. */
  lemma ReplayReturnsTheFirstRow(b: Base, calls: seq<Call>, more: seq<Call>, c: Claim,
                                 e: string, eh: string, e': string, eh': string)
    requires ClaimOutcome(b, ApplyAll(b, EMPTY, calls).claims, c, e, eh).Claimed?
    ensures var row := ClaimOutcome(b, ApplyAll(b, EMPTY, calls).claims, c, e, eh).row;
            var later := ApplyAll(b, EMPTY, calls + [TakeClaim(c, e, eh)] + more);
            ClaimOutcome(b, later.claims, c, e', eh') == Replayed(row) && ClaimPhase(b, later, c, e', eh') == later
  {
    hide Find, DistinctClaims, DistinctEvents, Made, PredecessorHead, Insertable, HeadHash;
    var taken := calls + [TakeClaim(c, e, eh)];
    var t := ApplyAll(b, EMPTY, taken);
    var later := ApplyAll(b, EMPTY, taken + more);
    assert taken[..|taken| - 1] == calls;
    var row := ClaimOutcome(b, ApplyAll(b, EMPTY, calls).claims, c, e, eh).row;
    assert t.claims == ApplyAll(b, EMPTY, calls).claims + [row];
    HistoriesGrow(b, taken, more);
    HistoriesAreTidy(b, taken + more);
    assert later.claims[|t.claims| - 1] == t.claims[|t.claims| - 1] == row && row.claim == c;
    assert Find(later.claims, c.attempt, c.phase).Some?;
    OneRowPerPhase(later.claims, row, Find(later.claims, c.attempt, c.phase).value);
  }

  /** The agreement of phase and sequence is needed: the journal alone lets an attempt skip number 2. */
  lemma DisagreementLeavesAGap(b: Base)
    requires forall c :: b.marshal(c).Some?
    ensures var first := Claim("h1", "i1", ADAPTER, 1, "a", 1, 2);
            var third := Claim("h3", "i3", TEST, 3, "a", 1, 2);
            var t := ApplyAll(b, EMPTY, [TakeClaim(first, "e", "eh"), TakeClaim(third, "e", "eh")]);
            |t.claims| == 2 && t.claims[0].claim.sequence == 1 && t.claims[1].claim.sequence == 3
  {
    hide ClaimOutcome;
    var first := Claim("h1", "i1", ADAPTER, 1, "a", 1, 2);
    var third := Claim("h3", "i3", TEST, 3, "a", 1, 2);
    var calls := [TakeClaim(first, "e", "eh"), TakeClaim(third, "e", "eh")];
    assert calls[..1] == [TakeClaim(first, "e", "eh")] && calls[..1][..0] == [];
    FirstIsTaken(b, first);
    var row := ClaimOutcome(b, [], first, "e", "eh").row;
    assert ApplyAll(b, EMPTY, calls[..1]) == EMPTY.(claims := [] + [row]);
    ThirdIsTaken(b, row, third);
  }

  lemma FirstIsTaken(b: Base, c: Claim)
    requires b.marshal(c).Some? && c == Claim("h1", "i1", ADAPTER, 1, "a", 1, 2)
    ensures var r := ClaimOutcome(b, [], c, "e", "eh"); r.Claimed? && r.row.claim == c
  {
  }

  lemma ThirdIsTaken(b: Base, row: Row, c: Claim)
    requires row.claim == Claim("h1", "i1", ADAPTER, 1, "a", 1, 2)
    requires b.marshal(c).Some? && c == Claim("h3", "i3", TEST, 3, "a", 1, 2)
    ensures var r := ClaimOutcome(b, [] + [row], c, "e", "eh"); r.Claimed? && r.row.claim == c
  {
  }
}
