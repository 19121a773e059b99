/** The journal as an object: each call is one transaction over the tables it holds. */
module JournalStore {
  import opened Common
  import opened Journal
  import opened Phases

  // loadClaimByAttemptPhase
  method LoadClaim(claims: seq<Row>, attempt: string, phase: string) returns (r: Option<Row>)
    ensures r == Find(claims, attempt, phase)
  {
    var i := 0;
    while i < |claims|
      invariant 0 <= i <= |claims|
      invariant Find(claims, attempt, phase) == Find(claims[i..], attempt, phase)
    {
      if claims[i].claim.attempt == attempt && claims[i].claim.phase == phase {
        return Some(claims[i]);
      }
      i := i + 1;
    }
    return None;
  }

  // The constraints that an insert into supervisor_claims checks against every row.
  method MayInsert(claims: seq<Row>, c: Claim) returns (ok: bool)
    ensures ok == Insertable(claims, c)
  {
    if c.phase !in {MATERIALIZATION, ADAPTER, TEST} || c.sequence < 1 || c.sequence > 3 || c.number < 1 {
      return false;
    }
    for i := 0 to |claims|
      invariant forall x <- claims[..i] ::
        && x.claim.hash != c.hash && x.claim.id != c.id
        && (x.claim.attempt == c.attempt ==> x.claim.phase != c.phase && x.claim.sequence != c.sequence)
    {
      var x := claims[i].claim;
      assert claims[i] in claims && claims[..i + 1] == claims[..i] + [claims[i]];
      if x.hash == c.hash || x.id == c.id
         || (x.attempt == c.attempt && (x.phase == c.phase || x.sequence == c.sequence))
      {
        return false;
      }
    }
    assert claims[..|claims|] == claims;
    return true;
  }

  // Whether an event of this claim, or with this hash, is recorded.
  method EventConflicts(events: seq<Event>, claimHash: string, hash: string) returns (ofClaim: bool, ofHash: bool)
    ensures ofClaim == HasEvent(events, claimHash) && ofHash == HashUsed(events, hash)
  {
    ofClaim, ofHash := false, false;
    for i := 0 to |events|
      invariant ofClaim == HasEvent(events[..i], claimHash) && ofHash == HashUsed(events[..i], hash)
    {
      EventsOfMore(events[..i], events[i], claimHash, hash);
      assert events[..i + 1] == events[..i] + [events[i]];
      ofClaim := ofClaim || events[i].claimHash == claimHash;
      ofHash := ofHash || events[i].hash == hash;
    }
    assert events[..|events|] == events;
  }

  class Store {
    const base: Base
    var epochs: seq<(string, string)>
    var claims: seq<Row>
    var events: seq<Event>

    constructor (base: Base)
      ensures this.base == base && Now() == EMPTY
    {
      this.base := base;
      epochs, claims, events := [], [], [];
    }

    function Now(): Tables
      reads this
    {
      Tables(epochs, claims, events)
    }

    method TakeClaim(c: Claim, epoch: string, epochHash: string) returns (r: Outcome)
      modifies this
      ensures r == ClaimOutcome(base, old(claims), c, epoch, epochHash)
      ensures Now() == ClaimPhase(base, old(Now()), c, epoch, epochHash)
    {
      hide Find, Insertable, HeadHash, PhaseBySequence;
      if c.hash == "" || c.id == "" || c.attempt == "" || c.sequence < 1 || c.sequence > 3 {
        return Refused(Conflict);
      }
      var existing := LoadClaim(claims, c.attempt, c.phase);
      if existing.Some? {
        var json := match base.marshal(c) case None => "" case Some(j) => j;
        return if existing.value.json == json then Replayed(existing.value) else Refused(Conflict);
      }
      var pred := "";
      if c.sequence > 1 {
        var before := LoadClaim(claims, c.attempt, PhaseBySequence(c.sequence - 1));
        if before.None? {
          return Refused(PredecessorMissing);
        }
        pred := before.value.head;
      }
      var json := base.marshal(c);
      if json.None? {
        return Refused(MarshalFailed);
      }
      var ok := MayInsert(claims, c);
      if !ok {
        return Refused(StoreFailed);
      }
      var row := Row(c, epoch, epochHash, HeadHash(base.h, pred, c.hash), pred, json.value);
      claims := claims + [row];
      return Claimed(row);
    }

    method RecordLaunch(e: Event)
      modifies this
      ensures Now() == MarkLaunched(old(Now()), e)
    {
      var ofClaim, ofHash := EventConflicts(events, e.claimHash, e.hash);
      if !ofClaim && !ofHash {
        events := events + [e];
      }
    }

    method MarkPriorEpochNonterminal(epoch: string) returns (ok: bool)
      modifies this
      ensures ok == InsertWaiting(base.h, old(events), Pending(old(claims), old(events), epoch)).Some?
      ensures Now() == Sweep(base.h, old(Now()), epoch)
    {
      hide HasEvent, HashUsed, WaitingEvent;
      var pending: seq<Row> := [];
      for i := 0 to |claims|
        invariant Now() == old(Now()) && pending == Pending(claims[..i], events, epoch)
      {
        assert claims[..i + 1][..i] == claims[..i];
        var x := claims[i];
        var has, _ := EventConflicts(events, x.claim.hash, "");
        if x.epoch != epoch && !has {
          pending := pending + [x];
        }
      }
      assert claims[..|claims|] == claims;
      var written := events;
      for i := 0 to |pending|
        invariant Now() == old(Now())
        invariant InsertWaiting(base.h, events, pending) == InsertWaiting(base.h, written, pending[i..])
      {
        var e := WaitingEvent(base.h, pending[i]);
        var ofClaim, ofHash := EventConflicts(written, e.claimHash, e.hash);
        assert pending[i..][0] == pending[i] && pending[i..][1..] == pending[i + 1..];
        if ofClaim || ofHash {
          return false;
        }
        written := written + [e];
      }
      events := written;
      return true;
    }

    method AddBootEpoch(epoch: string, epochHash: string) returns (ok: bool)
      modifies this
      ensures Now() == RecordBootEpoch(old(Now()), epoch, epochHash)
      ensures ok <==> forall e <- old(epochs) :: e.0 != epoch && e.1 != epochHash
    {
      ok := forall e <- epochs :: e.0 != epoch && e.1 != epochHash;
      if ok {
        epochs := epochs + [(epoch, epochHash)];
      }
    }
  }
}
