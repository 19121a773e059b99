/** The supervisor journal: insert-only claims, hash-chained heads, and terminal events. */
module Journal {
  import opened Common
  import opened Hashing
  import opened Phases

  const WAITING := "waiting_for_human"

  datatype Claim = Claim(hash: string, id: string, phase: string, sequence: int, attempt: string, number: int, cap: int)

  datatype Row = Row(claim: Claim, epoch: string, epochHash: string, head: string, pred: string, json: string)

  datatype Event = Event(hash: string, claimHash: string, phase: string, sequence: int, attempt: string,
                         epoch: string, epochHash: string, status: string)

  datatype Tables = Tables(epochs: seq<(string, string)>, claims: seq<Row>, events: seq<Event>)

  datatype Error = Conflict | PredecessorMissing | MarshalFailed | StoreFailed

  datatype Outcome = Claimed(row: Row) | Replayed(row: Row) | Refused(error: Error)

  // What the journal is built on: SHA-256 and the canonical encoding of claims.
  datatype Base = Base(h: Hash, marshal: Claim -> Option<string>)

  function HeadHash(h: Hash, pred: string, claimHash: string): string { HashText(h, pred + ":" + claimHash) }

  // --- Claims ---

  function Find(claims: seq<Row>, attempt: string, phase: string): (r: Option<Row>)
    ensures r.Some? ==> r.value in claims && r.value.claim.attempt == attempt && r.value.claim.phase == phase
    ensures r.None? ==> forall x <- claims :: x.claim.attempt != attempt || x.claim.phase != phase
  {
    if claims == [] then None
    else if claims[0].claim.attempt == attempt && claims[0].claim.phase == phase then Some(claims[0])
    else Find(claims[1..], attempt, phase)
  }

  // The CHECK and UNIQUE constraints of supervisor_claims.
  predicate Insertable(claims: seq<Row>, c: Claim) {
    && c.phase in {MATERIALIZATION, ADAPTER, TEST} && 1 <= c.sequence <= 3 && c.number >= 1
    && forall x <- claims ::
         && x.claim.hash != c.hash && x.claim.id != c.id
         && (x.claim.attempt == c.attempt ==> x.claim.phase != c.phase && x.claim.sequence != c.sequence)
  }

  function PredecessorHead(claims: seq<Row>, c: Claim): Option<string> {
    if c.sequence <= 1 then Some("")
    else
      match Find(claims, c.attempt, PhaseBySequence(c.sequence - 1))
      case None => None
      case Some(x) => Some(x.head)
  }

  function ClaimOutcome(b: Base, claims: seq<Row>, c: Claim, epoch: string, epochHash: string): Outcome {
    if c.hash == "" || c.id == "" || c.attempt == "" || c.sequence < 1 || c.sequence > 3 then Refused(Conflict)
    else
      match Find(claims, c.attempt, c.phase)
      case Some(x) =>
        var json := match b.marshal(c) case None => "" case Some(j) => j;
        if x.json == json then Replayed(x) else Refused(Conflict)
      case None =>
        match PredecessorHead(claims, c)
        case None => Refused(PredecessorMissing)
        case Some(pred) =>
          match b.marshal(c)
          case None => Refused(MarshalFailed)
          case Some(json) =>
            if Insertable(claims, c) then Claimed(Row(c, epoch, epochHash, HeadHash(b.h, pred, c.hash), pred, json))
            else Refused(StoreFailed)
  }

  function ClaimPhase(b: Base, t: Tables, c: Claim, epoch: string, epochHash: string): Tables {
    match ClaimOutcome(b, t.claims, c, epoch, epochHash)
    case Claimed(row) => t.(claims := t.claims + [row])
    case Replayed(_) => t
    case Refused(_) => t
  }

  // --- Terminal events ---

  predicate HasEvent(events: seq<Event>, claimHash: string) { exists e <- events :: e.claimHash == claimHash }

  predicate HashUsed(events: seq<Event>, hash: string) { exists e <- events :: e.hash == hash }

  function MarkLaunched(t: Tables, e: Event): Tables {
    if HasEvent(t.events, e.claimHash) || HashUsed(t.events, e.hash) then t else t.(events := t.events + [e])
  }

  predicate IsPending(events: seq<Event>, epoch: string, x: Row) { x.epoch != epoch && !HasEvent(events, x.claim.hash) }

  function Pending(claims: seq<Row>, events: seq<Event>, epoch: string): seq<Row> {
    if claims == [] then []
    else
      var front := Pending(claims[..|claims| - 1], events, epoch);
      var last := claims[|claims| - 1];
      if IsPending(events, epoch, last) then front + [last] else front
  }

  function WaitingEvent(h: Hash, x: Row): Event {
    Event(HeadHash(h, x.head, WAITING), x.claim.hash, x.claim.phase, x.claim.sequence, x.claim.attempt,
          x.epoch, x.epochHash, WAITING)
  }

  // The inserts of one sweep, in turn; a constraint that fails rolls the whole sweep back.
  function InsertWaiting(h: Hash, events: seq<Event>, pending: seq<Row>): Option<seq<Event>>
    decreases |pending|
  {
    if pending == [] then Some(events)
    else
      var e := WaitingEvent(h, pending[0]);
      if HasEvent(events, e.claimHash) || HashUsed(events, e.hash) then None
      else InsertWaiting(h, events + [e], pending[1..])
  }

  function Sweep(h: Hash, t: Tables, epoch: string): Tables {
    match InsertWaiting(h, t.events, Pending(t.claims, t.events, epoch))
    case None => t
    case Some(events) => t.(events := events)
  }

  function RecordBootEpoch(t: Tables, epoch: string, epochHash: string): Tables {
    if exists e <- t.epochs :: e.0 == epoch || e.1 == epochHash then t
    else t.(epochs := t.epochs + [(epoch, epochHash)])
  }

  // --- Histories ---

  datatype Call =
    | Boot(epoch: string, epochHash: string)
    | TakeClaim(claim: Claim, epoch: string, epochHash: string)
    | Launch(event: Event)
    | MarkPrior(epoch: string)
    | Failing  // a call that lost its transaction

  function Apply(b: Base, t: Tables, c: Call): Tables {
    match c
    case Boot(e, h) => RecordBootEpoch(t, e, h)
    case TakeClaim(c, e, h) => ClaimPhase(b, t, c, e, h)
    case Launch(e) => MarkLaunched(t, e)
    case MarkPrior(e) => Sweep(b.h, t, e)
    case Failing => t
  }

  function ApplyAll(b: Base, t: Tables, calls: seq<Call>): Tables {
    if calls == [] then t else Apply(b, ApplyAll(b, t, calls[..|calls| - 1]), calls[|calls| - 1])
  }

  const EMPTY := Tables([], [], [])

  // --- What every reachable journal satisfies ---

  // The claims of one attempt, in the order they were inserted.
  function Of(claims: seq<Row>, attempt: string): seq<Row> {
    if claims == [] then []
    else
      var front := Of(claims[..|claims| - 1], attempt);
      if claims[|claims| - 1].claim.attempt == attempt then front + [claims[|claims| - 1]] else front
  }

  // computeJournalHeadHash folded over the claims of an attempt.
  function FoldHeads(h: Hash, rows: seq<Row>): string {
    if rows == [] then "" else HeadHash(h, FoldHeads(h, rows[..|rows| - 1]), rows[|rows| - 1].claim.hash)
  }

  // Sequences 1..k with no gap, one per phase, each head the fold over the claims up to it.
  predicate Chained(h: Hash, rows: seq<Row>) { |rows| <= 3 && forall i :: 0 <= i < |rows| ==> Linked(h, rows, i) }

  predicate Linked(h: Hash, rows: seq<Row>, i: nat)
    requires i < |rows|
  {
    && rows[i].claim.sequence == i + 1 && rows[i].claim.phase == PhaseBySequence(i + 1)
    && rows[i].pred == FoldHeads(h, rows[..i]) && rows[i].head == FoldHeads(h, rows[..i + 1])
  }

  // What the UNIQUE constraints keep.
  ghost predicate DistinctClaims(claims: seq<Row>) {
    forall i, j :: 0 <= i < j < |claims| ==> ClaimsDiffer(claims[i].claim, claims[j].claim)
  }

  predicate ClaimsDiffer(c: Claim, d: Claim) {
    c.hash != d.hash && c.id != d.id && (c.attempt == d.attempt ==> c.phase != d.phase && c.sequence != d.sequence)
  }

  ghost predicate DistinctEvents(events: seq<Event>) {
    forall i, j :: 0 <= i < j < |events| ==>
      events[i].claimHash != events[j].claimHash && events[i].hash != events[j].hash
  }

  // A row's head is made of its own claim hash and of no head, or of a head made the same way.
  ghost predicate Made(h: Hash, x: Row) {
    && x.head == HeadHash(h, x.pred, x.claim.hash)
    && (x.pred == "" || exists p, c :: x.pred == HeadHash(h, p, c))
  }

  /** What every journal satisfies, whatever claims were asked for. */
  ghost predicate Tidy(b: Base, t: Tables) {
    DistinctClaims(t.claims) && DistinctEvents(t.events) && forall x <- t.claims :: Made(b.h, x)
  }

  ghost predicate AllChained(h: Hash, claims: seq<Row>) { forall a :: Chained(h, Of(claims, a)) }

  ghost predicate Consistent(b: Base, t: Tables) { Tidy(b, t) && AllChained(b.h, t.claims) }

  lemma {:induction false} OfIsWhole(claims: seq<Row>, attempt: string)
    ensures forall x :: x in Of(claims, attempt) <==> x in claims && x.claim.attempt == attempt
    decreases |claims|
  {
    if claims != [] {
      var last := claims[|claims| - 1];
      OfIsWhole(claims[..|claims| - 1], attempt);
      assert claims == claims[..|claims| - 1] + [last];
    }
  }

  lemma OfAppend(claims: seq<Row>, row: Row, attempt: string)
    ensures Of(claims + [row], attempt) ==
            if row.claim.attempt == attempt then Of(claims, attempt) + [row] else Of(claims, attempt)
  {
  }

  lemma PhasesDiffer(i: nat, j: nat)
    requires 1 <= i <= 3 && 1 <= j <= 3 && PhaseBySequence(i) == PhaseBySequence(j)
    ensures i == j
  {
  }

  // In a chained attempt a phase is found exactly when its sequence number has been reached.
  lemma FoundIff(h: Hash, claims: seq<Row>, attempt: string, s: nat)
    requires 1 <= s <= 3 && Chained(h, Of(claims, attempt))
    ensures Find(claims, attempt, PhaseBySequence(s)).Some? <==> s <= |Of(claims, attempt)|
    ensures s <= |Of(claims, attempt)| ==> Find(claims, attempt, PhaseBySequence(s)).value == Of(claims, attempt)[s - 1]
  {
    hide Find, Of;
    OfIsWhole(claims, attempt);
    FoundAt(h, Of(claims, attempt), Find(claims, attempt, PhaseBySequence(s)), s);
  }

  lemma FoundAt(h: Hash, rows: seq<Row>, found: Option<Row>, s: nat)
    requires 1 <= s <= 3 && Chained(h, rows)
    requires found.Some? ==> found.value in rows && found.value.claim.phase == PhaseBySequence(s)
    requires found.None? ==> forall x <- rows :: x.claim.phase != PhaseBySequence(s)
    ensures found.Some? <==> s <= |rows|
    ensures s <= |rows| ==> found == Some(rows[s - 1])
  {
    hide PhaseBySequence, FoldHeads;
    if s <= |rows| {
      assert Linked(h, rows, s - 1) && rows[s - 1] in rows;
    }
    if found.Some? {
      var i :| 0 <= i < |rows| && rows[i] == found.value;
      assert Linked(h, rows, i);
      PhasesDiffer(i + 1, s);
    }
  }

  lemma LinkStays(h: Hash, rows: seq<Row>, row: Row, i: nat)
    requires i < |rows| && Linked(h, rows, i)
    ensures Linked(h, rows + [row], i)
  {
    assert (rows + [row])[..i] == rows[..i] && (rows + [row])[..i + 1] == rows[..i + 1];
  }

  lemma ChainGrows(h: Hash, rows: seq<Row>, row: Row)
    requires Chained(h, rows) && |rows| < 3
    requires row.claim.sequence == |rows| + 1 && row.claim.phase == PhaseBySequence(|rows| + 1)
    requires row.pred == FoldHeads(h, rows) && row.head == HeadHash(h, row.pred, row.claim.hash)
    ensures Chained(h, rows + [row])
  {
    hide Linked;
    forall i | 0 <= i < |rows| ensures Linked(h, rows + [row], i) {
      LinkStays(h, rows, row, i);
    }
    LastLink(h, rows, row);
  }

  lemma LastLink(h: Hash, rows: seq<Row>, row: Row)
    requires row.claim.sequence == |rows| + 1 && row.claim.phase == PhaseBySequence(|rows| + 1)
    requires row.pred == FoldHeads(h, rows) && row.head == HeadHash(h, row.pred, row.claim.hash)
    ensures Linked(h, rows + [row], |rows|)
  {
    hide HeadHash, PhaseBySequence;
    var all := rows + [row];
    assert all[..|rows| + 1] == all && all[..|rows|] == rows;
  }

  /** A successful claim takes the next sequence number of its attempt, and links to the head before it. */
  lemma ClaimTakesTheNextNumber(b: Base, claims: seq<Row>, c: Claim, epoch: string, epochHash: string)
    requires c.phase == PhaseBySequence(c.sequence) && Chained(b.h, Of(claims, c.attempt))
    ensures var r := ClaimOutcome(b, claims, c, epoch, epochHash);
            r.Claimed? ==>
              && c.sequence == |Of(claims, c.attempt)| + 1
              && r.row.pred == FoldHeads(b.h, Of(claims, c.attempt))
              && Chained(b.h, Of(claims, c.attempt) + [r.row])
  {
    hide Find, PhaseBySequence, HeadHash, Insertable, Chained;
    var r := ClaimOutcome(b, claims, c, epoch, epochHash);
    var rows := Of(claims, c.attempt);
    if r.Claimed? {
      FoundIff(b.h, claims, c.attempt, c.sequence);
      if c.sequence > 1 {
        FoundIff(b.h, claims, c.attempt, c.sequence - 1);
        HeadOfLast(b.h, rows);
      }
      ChainLength(b.h, rows);
      ChainGrows(b.h, rows, r.row);
    }
  }

  lemma ChainLength(h: Hash, rows: seq<Row>)
    requires Chained(h, rows)
    ensures |rows| <= 3 && (rows == [] ==> FoldHeads(h, rows) == "")
  {
  }

  lemma LinkedHead(h: Hash, rows: seq<Row>, i: nat)
    requires i < |rows| && Linked(h, rows, i)
    ensures rows[i].head == FoldHeads(h, rows[..i + 1])
  {
    hide FoldHeads, PhaseBySequence;
  }

  lemma HeadOfLast(h: Hash, rows: seq<Row>)
    requires Chained(h, rows)
    ensures rows != [] ==> rows[|rows| - 1].head == FoldHeads(h, rows)
  {
    hide FoldHeads, PhaseBySequence, Linked;
    if rows != [] {
      LinkedHead(h, rows, |rows| - 1);
      assert rows[..|rows| - 1 + 1] == rows;
    }
  }

  /** Whether its phase and sequence agree or not, a claim breaks no constraint and links to a real head. */
  lemma ClaimKeepsTidy(b: Base, t: Tables, c: Claim, epoch: string, epochHash: string)
    requires Tidy(b, t)
    ensures Tidy(b, ClaimPhase(b, t, c, epoch, epochHash))
  {
    hide DistinctEvents, HeadHash, PhaseBySequence, Find;
    var r := ClaimOutcome(b, t.claims, c, epoch, epochHash);
    if r.Claimed? {
      assert Insertable(t.claims, c) && r.row.claim == c;
      assert Made(b.h, r.row);
    }
  }

  lemma ClaimKeepsConsistent(b: Base, t: Tables, c: Claim, epoch: string, epochHash: string)
    requires Consistent(b, t) && c.phase == PhaseBySequence(c.sequence)
    ensures Consistent(b, ClaimPhase(b, t, c, epoch, epochHash))
  {
    hide Tidy, Chained, Of, PhaseBySequence, Find, HeadHash, FoldHeads;
    ClaimKeepsTidy(b, t, c, epoch, epochHash);
    var r := ClaimOutcome(b, t.claims, c, epoch, epochHash);
    if r.Claimed? {
      ClaimTakesTheNextNumber(b, t.claims, c, epoch, epochHash);
      forall a ensures Chained(b.h, Of(t.claims + [r.row], a)) {
        OfAppend(t.claims, r.row, a);
      }
    }
  }

  predicate Agreed(c: Claim) { c.phase == PhaseBySequence(c.sequence) }

  /** A claim that is taken keeps its attempt chained exactly when its phase and sequence agree. */
  lemma TakenClaimChainsIff(b: Base, claims: seq<Row>, c: Claim, epoch: string, epochHash: string)
    requires Chained(b.h, Of(claims, c.attempt)) && ClaimOutcome(b, claims, c, epoch, epochHash).Claimed?
    ensures var row := ClaimOutcome(b, claims, c, epoch, epochHash).row;
            Chained(b.h, Of(claims + [row], c.attempt)) <==> Agreed(c)
  {
    hide Of, Find, HeadHash, PhaseBySequence, FoldHeads, Insertable;
    var row := ClaimOutcome(b, claims, c, epoch, epochHash).row;
    OfAppend(claims, row, c.attempt);
    if Agreed(c) {
      ClaimTakesTheNextNumber(b, claims, c, epoch, epochHash);
    } else {
      LastRowAgrees(b.h, Of(claims, c.attempt), row);
    }
  }

  lemma LastRowAgrees(h: Hash, rows: seq<Row>, row: Row)
    ensures Chained(h, rows + [row]) ==> Agreed(row.claim)
  {
    hide PhaseBySequence, FoldHeads;
    if Chained(h, rows + [row]) {
      assert Linked(h, rows + [row], |rows|);
    }
  }

  lemma ChainedRowsAgree(h: Hash, claims: seq<Row>, x: Row)
    requires x in claims && Chained(h, Of(claims, x.claim.attempt))
    ensures Agreed(x.claim)
  {
    hide Of, PhaseBySequence, FoldHeads;
    var rows := Of(claims, x.claim.attempt);
    OfIsWhole(claims, x.claim.attempt);
    var i :| 0 <= i < |rows| && rows[i] == x;
    assert Linked(h, rows, i);
  }

  /** When a claim is taken: its fields are filled, it is the next in its attempt, and its hash and id are new. */
  lemma ClaimTakenIff(b: Base, claims: seq<Row>, c: Claim, epoch: string, epochHash: string)
    requires c.phase == PhaseBySequence(c.sequence) && Chained(b.h, Of(claims, c.attempt))
    ensures ClaimOutcome(b, claims, c, epoch, epochHash).Claimed? <==>
            && c.hash != "" && c.id != "" && c.attempt != "" && c.number >= 1 && b.marshal(c).Some?
            && c.sequence == |Of(claims, c.attempt)| + 1 <= 3
            && forall x <- claims :: x.claim.hash != c.hash && x.claim.id != c.id
  {
    hide Find, HeadHash, Chained, Of;
    ClaimTakesTheNextNumber(b, claims, c, epoch, epochHash);
    if 1 <= c.sequence <= 3 {
      FoundIff(b.h, claims, c.attempt, c.sequence);
      if c.sequence > 1 {
        FoundIff(b.h, claims, c.attempt, c.sequence - 1);
      }
      if c.sequence == |Of(claims, c.attempt)| + 1 {
        NumberIsFree(b.h, claims, c);
      }
    }
  }

  lemma NumberIsFree(h: Hash, claims: seq<Row>, c: Claim)
    requires Chained(h, Of(claims, c.attempt)) && c.sequence == |Of(claims, c.attempt)| + 1 <= 3
    ensures forall x <- claims :: x.claim.attempt == c.attempt ==> x.claim.sequence != c.sequence
  {
    hide Of, FoldHeads, PhaseBySequence;
    var rows := Of(claims, c.attempt);
    OfIsWhole(claims, c.attempt);
    forall x <- claims | x.claim.attempt == c.attempt ensures x.claim.sequence != c.sequence {
      var i :| 0 <= i < |rows| && rows[i] == x;
      assert Linked(h, rows, i);
    }
  }

  // --- The head pins the history ---

  lemma FoldIsDigest(h: Hash, rows: seq<Row>)
    requires Ideal(h)
    ensures FoldHeads(h, rows) == "" <==> rows == []
    ensures rows != [] ==> IsDigest(FoldHeads(h, rows))
  {
  }

  lemma HeadSplits(h: Hash, a: string, b: string, c: string, d: string)
    requires Ideal(h) && (a == "" || IsDigest(a)) && (c == "" || IsDigest(c)) && HeadHash(h, a, b) == HeadHash(h, c, d)
    ensures a == c && b == d
  {
    HashTextInjective(h, a + ":" + b, c + ":" + d);
    ColonSplits(a, b, c, d);
  }

  function ClaimHashes(rows: seq<Row>): seq<string> { seq(|rows|, i requires 0 <= i < |rows| => rows[i].claim.hash) }

  /** Equal heads mean equal histories: the head of a claim determines every claim hash before it. */
  lemma {:induction false} HeadPinsHistory(h: Hash, xs: seq<Row>, ys: seq<Row>)
    requires Ideal(h) && FoldHeads(h, xs) == FoldHeads(h, ys)
    ensures ClaimHashes(xs) == ClaimHashes(ys)
    decreases |xs|
  {
    FoldIsDigest(h, xs);
    FoldIsDigest(h, ys);
    if xs != [] {
      var x, y := xs[..|xs| - 1], ys[..|ys| - 1];
      FoldIsDigest(h, x);
      FoldIsDigest(h, y);
      HeadSplits(h, FoldHeads(h, x), xs[|xs| - 1].claim.hash, FoldHeads(h, y), ys[|ys| - 1].claim.hash);
      HeadPinsHistory(h, x, y);
      assert ClaimHashes(xs) == ClaimHashes(x) + [xs[|xs| - 1].claim.hash];
      assert ClaimHashes(ys) == ClaimHashes(y) + [ys[|ys| - 1].claim.hash];
    }
  }

  // A row's head is made of the head before it and its own claim hash.
  ghost predicate Headed(h: Hash, x: Row) {
    (x.pred == "" || IsDigest(x.pred)) && x.head == HeadHash(h, x.pred, x.claim.hash)
  }

  lemma RowsAreHeaded(b: Base, t: Tables, x: Row)
    requires Ideal(b.h) && Tidy(b, t) && x in t.claims
    ensures Headed(b.h, x)
  {
    hide DistinctClaims, DistinctEvents;
    assert Made(b.h, x);
  }

  // --- Sweeps ---

  // Claims with different hashes and so different heads.
  ghost predicate Sweepable(h: Hash, events: seq<Event>, pending: seq<Row>) {
    && (forall x <- pending :: Headed(h, x) && !HasEvent(events, x.claim.hash))
    && Apart(pending)
  }

  ghost predicate Apart(rows: seq<Row>) {
    forall i, j :: 0 <= i < j < |rows| ==> rows[i].claim.hash != rows[j].claim.hash
  }

  lemma WaitingHashesDiffer(h: Hash, x: Row, y: Row)
    requires Ideal(h) && Headed(h, x) && Headed(h, y) && x.claim.hash != y.claim.hash
    ensures WaitingEvent(h, x).hash != WaitingEvent(h, y).hash
  {
    hide HeadHash;
    assert IsDigest(x.head) && IsDigest(y.head) by { HeadIsDigest(h, x); HeadIsDigest(h, y); }
    if HeadHash(h, x.head, WAITING) == HeadHash(h, y.head, WAITING) {
      HeadSplits(h, x.head, WAITING, y.head, WAITING);
      HeadSplits(h, x.pred, x.claim.hash, y.pred, y.claim.hash);
    }
  }

  lemma HeadIsDigest(h: Hash, x: Row)
    requires Ideal(h) && Headed(h, x)
    ensures IsDigest(x.head)
  {
  }

  function WaitingEvents(h: Hash, pending: seq<Row>): seq<Event> {
    seq(|pending|, i requires 0 <= i < |pending| => WaitingEvent(h, pending[i]))
  }

  ghost predicate HashesFree(h: Hash, events: seq<Event>, pending: seq<Row>) {
    forall x <- pending :: !HashUsed(events, WaitingEvent(h, x).hash)
  }

  lemma {:induction false} InsertsSucceedIff(h: Hash, events: seq<Event>, pending: seq<Row>)
    requires Ideal(h) && Sweepable(h, events, pending)
    ensures InsertWaiting(h, events, pending) ==
            if HashesFree(h, events, pending) then Some(events + WaitingEvents(h, pending)) else None
    decreases |pending|
  {
    hide WaitingEvent, HashUsed, HasEvent, Sweepable, HashesFree;
    if pending == [] {
      assert events + WaitingEvents(h, pending) == events;
      NoneToFree(h, events);
    } else {
      var e := WaitingEvent(h, pending[0]);
      FirstPending(h, events, pending);
      if !HashUsed(events, e.hash) {
        InsertOne(h, events, pending);
        InsertsSucceedIff(h, events + [e], pending[1..]);
        assert events + [e] + WaitingEvents(h, pending[1..]) == events + WaitingEvents(h, pending);
      }
    }
  }

  lemma NoneToFree(h: Hash, events: seq<Event>)
    ensures HashesFree(h, events, [])
  {
  }

  lemma FirstPending(h: Hash, events: seq<Event>, pending: seq<Row>)
    requires pending != [] && Sweepable(h, events, pending)
    ensures !HasEvent(events, WaitingEvent(h, pending[0]).claimHash)
    ensures HashesFree(h, events, pending) ==> !HashUsed(events, WaitingEvent(h, pending[0]).hash)
  {
  }

  lemma WaitingNames(h: Hash, x: Row)
    ensures WaitingEvent(h, x).claimHash == x.claim.hash
  {
  }

  lemma InsertOne(h: Hash, events: seq<Event>, pending: seq<Row>)
    requires Ideal(h) && pending != [] && Sweepable(h, events, pending)
             && !HashUsed(events, WaitingEvent(h, pending[0]).hash)
    ensures Sweepable(h, events + [WaitingEvent(h, pending[0])], pending[1..])
    ensures HashesFree(h, events + [WaitingEvent(h, pending[0])], pending[1..]) <==> HashesFree(h, events, pending)
  {
    hide WaitingEvent, Headed;
    var x, rest := pending[0], pending[1..];
    var more := events + [WaitingEvent(h, x)];
    assert x in pending && forall y <- rest :: y in pending;
    assert forall y <- pending :: y == x || y in rest;
    forall y <- rest
      ensures !HasEvent(more, y.claim.hash)
      ensures HashUsed(more, WaitingEvent(h, y).hash) == HashUsed(events, WaitingEvent(h, y).hash)
    {
      WaitingNames(h, x);
      assert x.claim.hash != y.claim.hash;
      WaitingHashesDiffer(h, x, y);
      EventsOfMore(events, WaitingEvent(h, x), y.claim.hash, WaitingEvent(h, y).hash);
    }
  }

  lemma EventsOfMore(events: seq<Event>, e: Event, claimHash: string, hash: string)
    ensures HasEvent(events + [e], claimHash) <==> HasEvent(events, claimHash) || e.claimHash == claimHash
    ensures HashUsed(events + [e], hash) <==> HashUsed(events, hash) || e.hash == hash
  {
  }

  lemma {:induction false} PendingIs(claims: seq<Row>, events: seq<Event>, epoch: string)
    ensures forall x :: x in Pending(claims, events, epoch) <==> x in claims && IsPending(events, epoch, x)
    decreases |claims|
  {
    hide IsPending;
    if claims != [] {
      var front, last := claims[..|claims| - 1], claims[|claims| - 1];
      PendingIs(front, events, epoch);
      assert claims == front + [last];
    }
  }

  lemma {:induction false} PendingDistinct(claims: seq<Row>, events: seq<Event>, epoch: string)
    requires DistinctClaims(claims)
    ensures Apart(Pending(claims, events, epoch))
    decreases |claims|
  {
    hide IsPending;
    if claims != [] {
      var front, last := claims[..|claims| - 1], claims[|claims| - 1];
      PendingDistinct(front, events, epoch);
      PendingIs(front, events, epoch);
      var p := Pending(front, events, epoch);
      forall i | 0 <= i < |p| ensures p[i].claim.hash != last.claim.hash {
        assert p[i] in p;
        var k :| 0 <= k < |front| && front[k] == p[i];
        assert claims[k] == p[i];
      }
      assert Apart(p + [last]);
    }
  }

  lemma PendingIsSweepable(b: Base, t: Tables, epoch: string)
    requires Ideal(b.h) && Tidy(b, t)
    ensures Sweepable(b.h, t.events, Pending(t.claims, t.events, epoch))
  {
    hide Pending, Headed, Made, ClaimsDiffer;
    PendingIs(t.claims, t.events, epoch);
    PendingDistinct(t.claims, t.events, epoch);
    forall x <- Pending(t.claims, t.events, epoch) ensures Headed(b.h, x) && !HasEvent(t.events, x.claim.hash) {
      RowsAreHeaded(b, t, x);
    }
  }

  /** A sweep goes through exactly when no event already has the hash one of its own would get; it then
      adds waiting_for_human for exactly the claims of other epochs that had no event, and else nothing. */
  lemma SweepIs(b: Base, t: Tables, epoch: string)
    requires Ideal(b.h) && Tidy(b, t)
    ensures var pending := Pending(t.claims, t.events, epoch);
            Sweep(b.h, t, epoch) ==
            if HashesFree(b.h, t.events, pending) then t.(events := t.events + WaitingEvents(b.h, pending)) else t
    ensures forall x :: x in Pending(t.claims, t.events, epoch) <==>
              x in t.claims && x.epoch != epoch && !HasEvent(t.events, x.claim.hash)
  {
    hide Pending, Tidy, Sweepable, HashesFree, WaitingEvents, InsertWaiting;
    PendingIsSweepable(b, t, epoch);
    InsertsSucceedIff(b.h, t.events, Pending(t.claims, t.events, epoch));
    PendingIs(t.claims, t.events, epoch);
  }

  lemma SweptHasEvents(h: Hash, events: seq<Event>, pending: seq<Row>, x: Row)
    requires x in pending
    ensures HasEvent(events + WaitingEvents(h, pending), x.claim.hash)
  {
    var i :| 0 <= i < |pending| && pending[i] == x;
    var e := WaitingEvents(h, pending)[i];
    assert e == (events + WaitingEvents(h, pending))[|events| + i];
    assert e in events + WaitingEvents(h, pending) && e.claimHash == x.claim.hash;
  }

  /** Sweeping again changes nothing. */
  lemma SweepTwice(b: Base, t: Tables, epoch: string)
    requires Ideal(b.h) && Tidy(b, t)
    ensures Sweep(b.h, Sweep(b.h, t, epoch), epoch) == Sweep(b.h, t, epoch)
  {
    hide Pending, Tidy, HashesFree, WaitingEvents;
    SweepIs(b, t, epoch);
    var pending := Pending(t.claims, t.events, epoch);
    var u := Sweep(b.h, t, epoch);
    var left := Pending(u.claims, u.events, epoch);
    assert left != [] ==> left[0] in left;
    if HashesFree(b.h, t.events, pending) {
      forall x | x in u.claims && x.epoch != epoch ensures HasEvent(u.events, x.claim.hash) {
        if HasEvent(t.events, x.claim.hash) {
          EventsStay(t.events, WaitingEvents(b.h, pending), x.claim.hash);
        } else {
          SweptHasEvents(b.h, t.events, pending, x);
        }
      }
      PendingIs(u.claims, u.events, epoch);
    }
  }

  lemma EventsStay(events: seq<Event>, more: seq<Event>, claimHash: string)
    requires HasEvent(events, claimHash)
    ensures HasEvent(events + more, claimHash)
  {
  }
}
