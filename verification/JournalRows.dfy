/** What the rows say that each call of the journal writes. */
module JournalRows {
  import opened Common
  import opened Hashing
  import opened Phases
  import opened Journal
  import opened JournalHistory

  // --- Sweeps ---

  // A claim of another epoch whose outcome is unknown.
  predicate Unfinished(t: Tables, epoch: string, x: Row) {
    x in t.claims && x.epoch != epoch && forall e <- t.events :: e.claimHash != x.claim.hash
  }

  // The event says of the claim that it waits for a human.
  predicate Waits(h: Hash, x: Row, e: Event) {
    && e.claimHash == x.claim.hash && e.phase == x.claim.phase && e.sequence == x.claim.sequence
    && e.attempt == x.claim.attempt && e.epoch == x.epoch && e.epochHash == x.epochHash
    && e.status == "waiting_for_human" && e.hash == HashText(h, x.head + ":waiting_for_human")
  }

  // No event has the hash such an event would get.
  predicate NoHashTaken(h: Hash, t: Tables, epoch: string) {
    forall x <- t.claims :: Unfinished(t, epoch, x) ==>
      forall e <- t.events :: e.hash != HashText(h, x.head + ":waiting_for_human")
  }

  lemma WaitingEventWaits(h: Hash, x: Row)
    ensures Waits(h, x, WaitingEvent(h, x))
  {
    assert x.head + ":waiting_for_human" == x.head + ":" + WAITING;
  }

  lemma PendingAreUnfinished(t: Tables, epoch: string)
    ensures forall x :: x in Pending(t.claims, t.events, epoch) <==> Unfinished(t, epoch, x)
  {
    hide Pending;
    PendingIs(t.claims, t.events, epoch);
  }

  lemma NoHashTakenIff(h: Hash, t: Tables, epoch: string)
    ensures HashesFree(h, t.events, Pending(t.claims, t.events, epoch)) <==> NoHashTaken(h, t, epoch)
  {
    hide Pending, Unfinished, WaitingEvent;
    PendingAreUnfinished(t, epoch);
    var pending := Pending(t.claims, t.events, epoch);
    forall x <- pending
      ensures x in t.claims && WaitingEvent(h, x).hash == HashText(h, x.head + ":waiting_for_human")
    {
      WaitingEventWaits(h, x);
      UnfinishedIsAClaim(t, epoch, x);
    }
    if NoHashTaken(h, t, epoch) {
      forall x <- pending ensures !HashUsed(t.events, WaitingEvent(h, x).hash) {
        assert Unfinished(t, epoch, x);
      }
    }
    if HashesFree(h, t.events, pending) {
      forall x <- t.claims | Unfinished(t, epoch, x)
        ensures forall e <- t.events :: e.hash != HashText(h, x.head + ":waiting_for_human")
      {
        assert x in pending;
      }
    }
  }

  /** A sweep goes through exactly when none of its event hashes is taken. It then records of every claim of another
      epoch without an event that it waits for a human, in an event with that claim's own phase, number, attempt and
      epoch, and records nothing else; otherwise it changes nothing. */
  lemma SweepMarks(b: Base, t: Tables, epoch: string)
    requires Ideal(b.h) && Tidy(b, t)
    ensures var u := Sweep(b.h, t, epoch);
            && u.claims == t.claims && u.epochs == t.epochs && t.events <= u.events
            && (!NoHashTaken(b.h, t, epoch) ==> u == t)
            && (NoHashTaken(b.h, t, epoch) ==>
                  && (forall x :: Unfinished(t, epoch, x) ==>
                        exists e <- u.events[|t.events|..] :: Waits(b.h, x, e))
                  && (forall e <- u.events[|t.events|..] ::
                        exists x <- t.claims :: Unfinished(t, epoch, x) && Waits(b.h, x, e)))
  {
    hide Pending, Tidy, HashesFree, NoHashTaken, WaitingEvent, Unfinished, Waits, Sweep;
    SweepIs(b, t, epoch);
    NoHashTakenIff(b.h, t, epoch);
    PendingAreUnfinished(t, epoch);
    var pending, u := Pending(t.claims, t.events, epoch), Sweep(b.h, t, epoch);
    if NoHashTaken(b.h, t, epoch) {
      var added := WaitingEvents(b.h, pending);
      assert u.events[|t.events|..] == added;
      forall x | Unfinished(t, epoch, x) ensures exists e <- added :: Waits(b.h, x, e) {
        var i :| 0 <= i < |pending| && pending[i] == x;
        WaitingEventWaits(b.h, x);
        assert added[i] == WaitingEvent(b.h, x) && added[i] in added;
      }
      forall e <- added ensures exists x <- t.claims :: Unfinished(t, epoch, x) && Waits(b.h, x, e) {
        var i :| 0 <= i < |added| && added[i] == e;
        WaitingEventWaits(b.h, pending[i]);
        assert pending[i] in pending;
        UnfinishedIsAClaim(t, epoch, pending[i]);
      }
    }
  }

  lemma UnfinishedIsAClaim(t: Tables, epoch: string, x: Row)
    requires Unfinished(t, epoch, x)
    ensures x in t.claims
  {
  }

  /** After a sweep that went through, no claim of another epoch is unfinished. */
  lemma SweepFinishes(b: Base, t: Tables, epoch: string, x: Row)
    requires Ideal(b.h) && Tidy(b, t) && NoHashTaken(b.h, t, epoch) && x in t.claims && x.epoch != epoch
    ensures exists e <- Sweep(b.h, t, epoch).events :: e.claimHash == x.claim.hash
  {
    hide NoHashTaken, Tidy, Sweep;
    SweepMarks(b, t, epoch);
    var u := Sweep(b.h, t, epoch);
    if Unfinished(t, epoch, x) {
      var e :| e in u.events[|t.events|..] && Waits(b.h, x, e);
      assert e in u.events;
    } else {
      var e :| e in t.events && e.claimHash == x.claim.hash;
      assert e in u.events;
    }
  }

  // --- Launches ---

  /** A launch of a claim without an event, under a hash no event has, is recorded as it was given; whatever happens
      later, it stays the claim's only event, so no sweep touches the claim. */
  lemma LaunchStays(b: Base, calls: seq<Call>, e: Event, more: seq<Call>)
    requires forall x <- ApplyAll(b, EMPTY, calls).events :: x.claimHash != e.claimHash && x.hash != e.hash
    ensures var later := ApplyAll(b, EMPTY, calls + [Launch(e)] + more).events;
            e in later && forall x <- later :: x.claimHash == e.claimHash ==> x == e
  {
    var taken := calls + [Launch(e)];
    assert taken[..|taken| - 1] == calls;
    var t := ApplyAll(b, EMPTY, calls);
    assert ApplyAll(b, EMPTY, taken) == t.(events := t.events + [e]);
    FirstEventStays(b, taken, more, e);
  }

  // --- Claims ---

  predicate IsPhaseBefore(d: Claim, c: Claim) {
    d.attempt == c.attempt && d.phase == PhaseBySequence(c.sequence - 1)
  }

  /** The row of a claim that is taken holds the claim, the epoch it was taken in and its encoding; its head is the
      hash of the head before it, a colon and the claim's hash. */
  lemma TakenRowIs(b: Base, claims: seq<Row>, c: Claim, epoch: string, epochHash: string)
    requires ClaimOutcome(b, claims, c, epoch, epochHash).Claimed?
    ensures var row := ClaimOutcome(b, claims, c, epoch, epochHash).row;
            && row.claim == c && row.epoch == epoch && row.epochHash == epochHash && Some(row.json) == b.marshal(c)
            && row.head == HashText(b.h, row.pred + ":" + c.hash)
            && (c.sequence == 1 ==> row.pred == "")
            && (c.sequence > 1 ==> exists x <- claims :: x.head == row.pred && IsPhaseBefore(x.claim, c))
  {
    hide Find;
  }

  // The claim that was taken for this phase is the same.
  predicate SameAgain(b: Base, rows: seq<Row>, c: Claim) {
    1 <= c.sequence <= |rows| && rows[c.sequence - 1].json == if b.marshal(c).Some? then b.marshal(c).value else ""
  }

  /** What a claim that is not taken comes to, by its place in the attempt: one already reached is replayed when it is
      the same and a conflict when it is not, and one further ahead lacks its predecessor. */
  lemma ClaimByPlace(b: Base, claims: seq<Row>, c: Claim, epoch: string, epochHash: string)
    requires c.phase == PhaseBySequence(c.sequence) && Chained(b.h, Of(claims, c.attempt))
    requires c.hash != "" && c.id != "" && c.attempt != "" && 1 <= c.sequence <= 3
    ensures var rows := Of(claims, c.attempt); var r := ClaimOutcome(b, claims, c, epoch, epochHash);
            && (c.sequence <= |rows| ==>
                  r == if SameAgain(b, rows, c) then Replayed(rows[c.sequence - 1]) else Refused(Conflict))
            && (c.sequence > |rows| + 1 <==> r == Refused(PredecessorMissing))
  {
    hide Find, Chained, Of, HeadHash, PhaseBySequence, Insertable;
    FoundIff(b.h, claims, c.attempt, c.sequence);
    if c.sequence > 1 {
      FoundIff(b.h, claims, c.attempt, c.sequence - 1);
    }
  }

  // --- Epochs ---

  ghost predicate DistinctEpochs(epochs: seq<(string, string)>) {
    forall i, j :: 0 <= i < j < |epochs| ==> epochs[i].0 != epochs[j].0 && epochs[i].1 != epochs[j].1
  }

  /** A boot epoch is recorded exactly when neither its id nor its hash is in use, with both as given. */
  lemma BootRecordedIff(t: Tables, epoch: string, epochHash: string)
    ensures var u := RecordBootEpoch(t, epoch, epochHash);
            && u.claims == t.claims && u.events == t.events
            && (u.epochs == t.epochs + [(epoch, epochHash)] <==>
                  forall e <- t.epochs :: e.0 != epoch && e.1 != epochHash)
            && (u.epochs == t.epochs || u.epochs == t.epochs + [(epoch, epochHash)])
  {
    assert |t.epochs + [(epoch, epochHash)]| > |t.epochs|;
  }

  /** Over every history no two epochs share an id or a hash. */
  lemma {:induction false} HistoriesHaveDistinctEpochs(b: Base, calls: seq<Call>)
    ensures DistinctEpochs(ApplyAll(b, EMPTY, calls).epochs)
    decreases |calls|
  {
    hide ClaimOutcome, InsertWaiting, Pending, HasEvent, HashUsed;
    if calls != [] {
      HistoriesHaveDistinctEpochs(b, calls[..|calls| - 1]);
    }
  }
}
