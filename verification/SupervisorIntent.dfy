/** EvaluateSupervisorIntentClaim: which capabilities any sequence of evaluations can mint. */
module SupervisorIntent {
  import opened Common
  import opened AuthorityWindows
  import opened Phases

  const SUCCEEDED := "succeeded"

  // --- Records ---

  // What a claim is about: shared by all phases of an attempt.
  datatype Attempt = Attempt(
    hash: string, number: int, cap: int, authorization: string, approval: string, epochHash: string)

  // `bindings` stands for the fields copied from the authorization, dispatch, repository and sandbox.
  datatype Claim = Claim(
    hash: string, id: string, phase: string, sequence: int, attempt: Attempt, epochId: string,
    predecessor: string, predecessorTerminal: string, head: string, slot: string, request: string, dispatch: string,
    createdAt: string, notAfter: string, bindings: string)

  datatype Dispatch = Dispatch(
    hash: string, request: string, number: int, cap: int, createdAt: string, notAfter: string, rest: string)

  // VerifiedAuthorization
  datatype Authorization = Authorization(
    valid: bool, hash: string, approval: string, number: int, cap: int, approvedAt: string, notAfter: string,
    rest: string)

  // SupervisorIntentAuthority
  datatype Authority = Authority(
    claimId: string, phase: string, sequence: int, attempt: Attempt, epochId: string, predecessor: string,
    head: string, slot: string, createdAt: string, notAfter: string, dispatch: Dispatch, rest: string)

  // VerifiedSupervisorClaimSlotCommit; `verified` is its four flags together.
  datatype Commit = Commit(
    verified: bool, phase: string, sequence: int, attempt: string, authorization: string, approval: string,
    epochId: string, epochHash: string, slot: string, head: string,
    claimId: string, claimHash: string, request: string, dispatch: string,
    bytes: seq<byte>, bytesHash: string, integrity: string)

  // VerifiedSupervisorTerminalEvent
  datatype Terminal = Terminal(
    verified: bool, attempt: string, phase: string, sequence: int, claimHash: string, hash: string, epochHash: string,
    slot: string, claimHead: string, terminalHead: string, status: string, integrity: string)

  // VerifiedSupervisorIntentClaim
  datatype Capability = Capability(valid: bool, claim: Claim, canonical: seq<byte>, commit: Commit)

  // The parts of the package that are only checked, not computed with: canonical encoding, record
  // hashes, integrity seals, identifier syntax, and the conjunctions of plain field equalities. `decode` reads
  // canonical bytes into a Go struct, which forgives omitted members: it need not be inverse to `encode`.
  datatype Env = Env(
    trust: seq<Span>,
    parse: string -> Option<int>,
    encode: Claim -> seq<byte>,
    decode: seq<byte> -> Option<Claim>,
    claimHash: Claim -> string,
    sha256: seq<byte> -> string,
    sealCommit: Commit -> string,
    sealTerminal: Terminal -> string,
    validHash: string -> bool,
    validId: string -> bool,
    authorizationSealed: Authorization -> bool,
    attemptHash: (Authorization, Dispatch) -> string,
    authorityBound: (Authority, Authorization) -> bool,
    dispatchBound: (Authorization, Dispatch) -> bool,
    bindings: (Authority, Authorization) -> string)

  function Period(env: Env, begin: string, end: string): Window { Window(env.parse(begin), env.parse(end)) }

  function ApprovalWindow(env: Env, a: Authorization): Window { Period(env, a.approvedAt, a.notAfter) }
  function DispatchWindow(env: Env, d: Dispatch): Window { Period(env, d.createdAt, d.notAfter) }
  function WindowOf(env: Env, x: Authority): Window { Period(env, x.createdAt, x.notAfter) }

  // --- Validation ---

  predicate ValidAuthority(env: Env, x: Authority, a: Authorization) {
    && a.valid && env.authorizationSealed(a)
    && env.attemptHash(a, x.dispatch) != "" && x.attempt.hash == env.attemptHash(a, x.dispatch)
    && x.attempt.number == a.number && x.attempt.cap == ATTEMPT_CAP == a.cap
    && x.dispatch.number == x.attempt.number && x.dispatch.cap == x.attempt.cap
    && PhaseSequence(x.phase) == x.sequence
    && env.validId(x.claimId) && env.validId(x.epochId) && env.validId(x.slot)
    && env.validHash(x.attempt.epochHash) && env.validHash(x.head) && env.validHash(x.attempt.hash)
    && (if x.sequence == 1 then x.predecessor == "" else env.validHash(x.predecessor))
    && env.authorityBound(x, a) && env.dispatchBound(a, x.dispatch)
    && IntentWindow(env.trust, ApprovalWindow(env, a), DispatchWindow(env, x.dispatch), WindowOf(env, x))
  }

  predicate Fresh(env: Env, x: Authority, a: Authorization, now: int) {
    env.dispatchBound(a, x.dispatch)
    && IntentFresh(env.trust, ApprovalWindow(env, a), DispatchWindow(env, x.dispatch), WindowOf(env, x), now)
  }

  predicate CommitMatchesClaim(m: Commit, c: Claim) {
    && m.attempt == c.attempt.hash && m.phase == c.phase && m.sequence == c.sequence && m.slot == c.slot
    && m.head == c.head
    && m.epochId == c.epochId && m.epochHash == c.attempt.epochHash && m.claimId == c.id && m.claimHash == c.hash
    && m.authorization == c.attempt.authorization && m.approval == c.attempt.approval
    && m.request == c.request && m.dispatch == c.dispatch
  }

  predicate CommitIntact(env: Env, m: Commit) {
    && m.verified && env.validHash(m.integrity) && m.integrity == env.sealCommit(m)
    && env.validHash(m.bytesHash) && m.bytesHash == env.sha256(m.bytes)
    && (forall d <- [m.attempt, m.head, m.epochHash, m.claimHash, m.authorization, m.approval, m.request, m.dispatch] ::
          env.validHash(d))
    && env.validId(m.slot) && env.validId(m.epochId) && PhaseSequence(m.phase) == m.sequence
    && var c := env.decode(m.bytes);
       c.Some? && CommitMatchesClaim(m, c.value) && c.value.hash == env.claimHash(c.value)
  }

  predicate CommitMatchesAuthority(m: Commit, x: Authority, a: Authorization) {
    && m.attempt == x.attempt.hash && m.phase == x.phase && m.sequence == x.sequence && m.slot == x.slot
    && m.head == x.head && m.epochId == x.epochId && m.epochHash == x.attempt.epochHash && m.claimId == x.claimId
    && m.authorization == a.hash && m.approval == a.approval
    && m.request == x.dispatch.request && m.dispatch == x.dispatch.hash
  }

  predicate TerminalIntact(env: Env, e: Terminal) {
    && e.verified && e.status == SUCCEEDED && 1 <= e.sequence < 3 && PhaseSequence(e.phase) == e.sequence
    && env.validHash(e.integrity) && e.integrity == env.sealTerminal(e)
    && env.validHash(e.attempt) && env.validHash(e.claimHash) && env.validHash(e.hash) && env.validHash(e.epochHash)
    && env.validHash(e.claimHead) && env.validHash(e.terminalHead) && env.validId(e.slot)
  }

  // What a minted capability says of itself: the claim it holds is the one that was committed.
  predicate CapabilitySealed(env: Env, k: Capability) {
    && k.valid && CommitIntact(env, k.commit) && k.commit.bytes == k.canonical
    && CommitMatchesClaim(k.commit, k.claim) && k.claim.hash == env.claimHash(k.claim)
  }

  // verifiedSupervisorIntentClaimIntact also asks that the committed bytes are the claim's own encoding.
  predicate CapabilityIntact(env: Env, k: Capability) { CapabilitySealed(env, k) && env.encode(k.claim) == k.canonical }

  // The claim is the one the authority expects.
  predicate ClaimMatches(env: Env, x: Authority, a: Authorization, c: Claim) {
    && c.id == x.claimId && c.phase == x.phase && c.sequence == x.sequence
    && c.attempt == Attempt(x.attempt.hash, x.attempt.number, x.attempt.cap, a.hash, a.approval, x.attempt.epochHash)
    && c.epochId == x.epochId && c.predecessor == x.predecessor && c.head == x.head && c.slot == x.slot
    && c.request == x.dispatch.request && c.dispatch == x.dispatch.hash
    && c.createdAt == x.createdAt && c.notAfter == x.notAfter && c.bindings == env.bindings(x, a)
    && c.hash == env.claimHash(c)
    && (forall d <- [c.hash, c.attempt.hash, c.attempt.authorization, c.attempt.approval, c.attempt.epochHash, c.head,
                     c.request, c.dispatch] :: env.validHash(d))
    && (if c.sequence == 1 then c.predecessor == "" && c.predecessorTerminal == ""
        else env.validHash(c.predecessor) && env.validHash(c.predecessorTerminal))
  }

  // The claim follows `p`, whose phase ended in `e`.
  predicate Follows(p: Claim, e: Terminal, c: Claim) {
    && p.sequence == c.sequence - 1 && PhaseSequence(p.phase) == c.sequence - 1 && p.hash == c.predecessor
    && p.attempt == c.attempt
    && e.attempt == c.attempt.hash && e.phase == p.phase && e.sequence == p.sequence && e.claimHash == p.hash
    && e.hash == c.predecessorTerminal && e.epochHash == c.attempt.epochHash && e.slot == p.slot
    && e.claimHead == p.head && e.terminalHead == c.head
  }

  predicate ValidClaim(env: Env, x: Authority, a: Authorization, p: Option<Capability>, e: Option<Terminal>, c: Claim) {
    && ClaimMatches(env, x, a, c)
    && if x.sequence == 1 then p.None? && e.None?
       else
         && p.Some? && e.Some? && CapabilityIntact(env, p.value) && TerminalIntact(env, e.value)
         && Follows(p.value.claim, e.value, c)
  }

  // --- Evaluation ---

  datatype Verdict = Invalid | AwaitingCommit | Conflict | ExactReplay(minted: Option<Capability>)

  datatype Request = Request(
    expected: Authority, authorization: Authorization, commit: Option<Commit>,
    predecessor: Option<Capability>, terminal: Option<Terminal>, raw: seq<byte>, now: int)

  function Evaluate(env: Env, q: Request): Verdict {
    if !ValidAuthority(env, q.expected, q.authorization) then Invalid
    else
      match q.commit
      case None =>
        var c := env.decode(q.raw);
        if c.Some? && ValidClaim(env, q.expected, q.authorization, q.predecessor, q.terminal, c.value)
           && Fresh(env, q.expected, q.authorization, q.now)
        then AwaitingCommit else Invalid
      case Some(m) =>
        if !CommitIntact(env, m) || !CommitMatchesAuthority(m, q.expected, q.authorization) then Invalid
        else if m.bytes != q.raw then Conflict
        else
          var c := env.decode(m.bytes);
          if c.None? || !ValidClaim(env, q.expected, q.authorization, q.predecessor, q.terminal, c.value) then Invalid
          else if !Fresh(env, q.expected, q.authorization, q.now) then ExactReplay(None)
          else ExactReplay(Some(Capability(true, c.value, m.bytes, m)))
  }

  // Capabilities are opaque outside the package: a caller can present nothing, a zero value, or one
  // that an earlier evaluation minted.
  predicate Presentable(minted: seq<Capability>, p: Option<Capability>) {
    p.Some? && p.value.valid ==> p.value in minted
  }

  function Mint(env: Env, minted: seq<Capability>, q: Request): seq<Capability> {
    var v := Evaluate(env, q);
    if v.ExactReplay? && v.minted.Some? then minted + [v.minted.value] else minted
  }

  function MintAll(env: Env, qs: seq<Request>): seq<Capability> {
    if qs == [] then [] else Mint(env, MintAll(env, qs[..|qs| - 1]), qs[|qs| - 1])
  }

  predicate Possible(env: Env, qs: seq<Request>)
    decreases |qs|
  {
    qs == [] || (Possible(env, qs[..|qs| - 1]) && Presentable(MintAll(env, qs[..|qs| - 1]), qs[|qs| - 1].predecessor))
  }

  // --- What was minted ---

  // A capability is the first of its attempt, or follows an earlier one that is intact and whose phase
  // succeeded.
  ghost predicate Grounded(env: Env, minted: seq<Capability>, i: nat)
    requires i < |minted|
  {
    && CapabilitySealed(env, minted[i])
    && PhaseSequence(minted[i].claim.phase) == minted[i].claim.sequence && 1 <= minted[i].claim.sequence <= 3
    && (minted[i].claim.sequence > 1 ==> exists j: nat, e: Terminal :: j < i && Precedes(env, minted[j], e, minted[i]))
  }

  predicate Precedes(env: Env, p: Capability, e: Terminal, k: Capability) {
    CapabilityIntact(env, p) && TerminalIntact(env, e) && Follows(p.claim, e, k.claim)
  }

  ghost predicate DirectlyFollows(env: Env, p: Capability, k: Capability) { exists e :: Precedes(env, p, e, k) }

  lemma GroundedStays(env: Env, minted: seq<Capability>, k: Capability, i: nat)
    requires i < |minted| && Grounded(env, minted, i)
    ensures Grounded(env, minted + [k], i)
  {
    hide CapabilitySealed, Precedes, PhaseSequence;
    var more := minted + [k];
    if minted[i].claim.sequence > 1 {
      var j: nat, e :| j < i && Precedes(env, minted[j], e, minted[i]);
      assert more[j] == minted[j];
    }
  }

  lemma MintedIsGrounded(env: Env, minted: seq<Capability>, q: Request)
    requires Presentable(minted, q.predecessor)
    requires Evaluate(env, q).ExactReplay? && Evaluate(env, q).minted.Some?
    ensures var more := minted + [Evaluate(env, q).minted.value]; Grounded(env, more, |minted|)
  {
    hide ValidAuthority, TerminalIntact, Follows;
    var k := Evaluate(env, q).minted.value;
    var more := minted + [k];
    assert CommitIntact(env, q.commit.value) && CapabilitySealed(env, k);
    PhasesAreNumbered(k.claim.phase, 1);
    AuthorityPhase(env, q.expected, q.authorization);
    if k.claim.sequence != 1 {
      var p, e := q.predecessor.value, q.terminal.value;
      FollowsIsLater(p.claim, e, k.claim);
      assert p in minted;
      var j :| 0 <= j < |minted| && minted[j] == p;
      assert more[j] == p && Precedes(env, more[j], e, more[|minted|]);
    }
  }

  // A phase outside the three has sequence 0, and nothing can be its predecessor.
  lemma FollowsIsLater(p: Claim, e: Terminal, c: Claim)
    requires Follows(p, e, c)
    ensures c.sequence >= 1
  {
  }

  lemma AuthorityPhase(env: Env, x: Authority, a: Authorization)
    requires ValidAuthority(env, x, a)
    ensures PhaseSequence(x.phase) == x.sequence
  {
  }

  /** Whatever is evaluated, in whatever order, every minted capability is grounded. */
  lemma {:induction false} AllGrounded(env: Env, qs: seq<Request>, i: nat)
    requires Possible(env, qs) && i < |MintAll(env, qs)|
    ensures Grounded(env, MintAll(env, qs), i)
    decreases |qs|
  {
    hide Grounded, Evaluate;
    var front, q := qs[..|qs| - 1], qs[|qs| - 1];
    var before := MintAll(env, front);
    if i == |before| {
      MintedIsGrounded(env, before, q);
    } else {
      AllGrounded(env, front, i);
      if Mint(env, before, q) != before {
        GroundedStays(env, before, Evaluate(env, q).minted.value, i);
      }
    }
  }

  // Capabilities for the phases 1..k of one attempt, in the order they were minted, each following the
  // one before it, and all but the last intact.
  ghost predicate Lineage(env: Env, minted: seq<Capability>, a: Attempt, at: seq<nat>) {
    forall s :: 0 <= s < |at| ==> LineageStep(env, minted, a, at, s)
  }

  ghost predicate LineageStep(env: Env, minted: seq<Capability>, a: Attempt, at: seq<nat>, s: nat)
    requires s < |at|
  {
    && at[s] < |minted| && CapabilitySealed(env, minted[at[s]]) && minted[at[s]].claim.attempt == a
    && minted[at[s]].claim.sequence == s + 1 == PhaseSequence(minted[at[s]].claim.phase)
    && (s > 0 ==> at[s - 1] < at[s] && DirectlyFollows(env, minted[at[s - 1]], minted[at[s]]))
  }

  /** Every capability for phase k has intact minted capabilities for all earlier phases of the same attempt,
      authorization, approval and boot epoch; each claim names the hash of the one before it, and its
      journal head is the head after that one's succeeded terminal event. */
  lemma {:induction false} MintedHaveLineage(env: Env, qs: seq<Request>, i: nat) returns (at: seq<nat>)
    requires Possible(env, qs) && i < |MintAll(env, qs)|
    ensures var minted := MintAll(env, qs);
            && |at| == minted[i].claim.sequence && |at| >= 1 && at[|at| - 1] == i
            && Lineage(env, minted, minted[i].claim.attempt, at)
    decreases i
  {
    hide CapabilitySealed, CapabilityIntact, TerminalIntact, PhaseSequence, MintAll, Possible;
    var minted := MintAll(env, qs);
    AllGrounded(env, qs, i);
    if minted[i].claim.sequence == 1 {
      at := [i];
    } else {
      var j: nat, e :| j < i && Precedes(env, minted[j], e, minted[i]);
      assert DirectlyFollows(env, minted[j], minted[i]);
      var front := MintedHaveLineage(env, qs, j);
      at := front + [i];
      var a := minted[i].claim.attempt;
      forall s | 0 <= s < |at| ensures LineageStep(env, minted, a, at, s) {
        if s < |front| {
          assert LineageStep(env, minted, a, front, s);
        }
      }
    }
  }

  /** A minted capability is intact, and so can be presented for the next phase, exactly when the committed
      bytes are its claim's own encoding. */
  lemma MintedIsIntactIff(env: Env, q: Request)
    requires Evaluate(env, q).ExactReplay? && Evaluate(env, q).minted.Some?
    ensures env.decode(q.raw).Some?
    ensures CapabilityIntact(env, Evaluate(env, q).minted.value) <==> env.encode(env.decode(q.raw).value) == q.raw
  {
    hide ValidAuthority, Fresh, TerminalIntact, Follows;
  }

  /** Whatever else a request holds, a predecessor that is not intact is refused. */
  lemma BrokenPredecessorIsRefused(env: Env, q: Request)
    requires q.predecessor.Some? && !CapabilityIntact(env, q.predecessor.value)
    ensures Evaluate(env, q).Invalid? || Evaluate(env, q).Conflict?
  {
    hide ValidAuthority, Fresh, CommitIntact, CommitMatchesAuthority, ClaimMatches, CapabilityIntact, Follows;
  }

  // What an evaluation asks of a request before it looks at the commit and the clock.
  predicate Sound(env: Env, q: Request) {
    && ValidAuthority(env, q.expected, q.authorization)
    && env.decode(q.raw).Some?
    && ValidClaim(env, q.expected, q.authorization, q.predecessor, q.terminal, env.decode(q.raw).value)
  }

  // The commit is intact, and of what the authority expects.
  predicate Committed(env: Env, q: Request, m: Commit) {
    CommitIntact(env, m) && CommitMatchesAuthority(m, q.expected, q.authorization)
  }

  // The clock is inside the window of the intent, with the certificates begun.
  predicate InTime(env: Env, q: Request) {
    var window := WindowOf(env, q.expected);
    Parses(window) && Within(window, q.now) && TrustBegun(env.trust, q.now)
  }

  lemma FreshIffInTime(env: Env, q: Request)
    requires ValidAuthority(env, q.expected, q.authorization)
    ensures Fresh(env, q.expected, q.authorization, q.now) <==> InTime(env, q)
  {
    hide IntentFresh;
    var x, a := q.expected, q.authorization;
    OneInstantSuffices(env.trust, ApprovalWindow(env, a), DispatchWindow(env, x.dispatch), WindowOf(env, x), q.now);
  }

  /** A claim awaits its commit exactly when none is given, the request is sound, and the clock is inside the intent's
      window with the certificates begun. */
  lemma AwaitingIff(env: Env, q: Request)
    ensures Evaluate(env, q).AwaitingCommit? <==> q.commit.None? && Sound(env, q) && InTime(env, q)
  {
    hide ValidAuthority, ValidClaim, Fresh, InTime, CommitIntact, CommitMatchesAuthority;
    if ValidAuthority(env, q.expected, q.authorization) {
      FreshIffInTime(env, q);
    }
  }

  /** A capability is minted exactly when a commit of the very bytes is given, the request is sound, and the clock is
      inside the window; outside it the same request is a replay that mints nothing. */
  lemma MintedIff(env: Env, q: Request)
    ensures Evaluate(env, q).ExactReplay? <==>
            Sound(env, q) && q.commit.Some? && Committed(env, q, q.commit.value) && q.commit.value.bytes == q.raw
    ensures Evaluate(env, q).ExactReplay? ==>
            Evaluate(env, q).minted ==
            if InTime(env, q) then Some(Capability(true, env.decode(q.raw).value, q.raw, q.commit.value)) else None
  {
    hide ValidAuthority, ValidClaim, Fresh, InTime, CommitIntact, CommitMatchesAuthority;
    if ValidAuthority(env, q.expected, q.authorization) {
      FreshIffInTime(env, q);
    }
  }

  /** Other bytes than the committed ones are a conflict, whatever they say. */
  lemma ConflictIff(env: Env, q: Request)
    ensures Evaluate(env, q).Conflict? <==>
            && ValidAuthority(env, q.expected, q.authorization)
            && q.commit.Some? && Committed(env, q, q.commit.value) && q.commit.value.bytes != q.raw
  {
    hide ValidAuthority, ValidClaim, Fresh, CommitIntact, CommitMatchesAuthority;
  }

  /** The two steps of a claim belong together: a request that mints would have awaited its commit without it, and
      one that awaits its commit mints as soon as a commit of the same bytes is there. */
  lemma AwaitsThenMints(env: Env, q: Request, m: Commit)
    requires q.commit.None? && Committed(env, q, m) && m.bytes == q.raw
    ensures var minted := ExactReplay(Some(Capability(true, env.decode(q.raw).value, q.raw, m)));
            env.decode(q.raw).Some? &&
            (Evaluate(env, q).AwaitingCommit? <==> Evaluate(env, q.(commit := Some(m))) == minted)
  {
    hide Evaluate, ValidAuthority, ValidClaim, InTime, CommitMatchesAuthority;
    AwaitingIff(env, q);
    MintedIff(env, q.(commit := Some(m)));
    SameButForCommit(env, q, m);
  }

  lemma SameButForCommit(env: Env, q: Request, m: Commit)
    ensures Sound(env, q.(commit := Some(m))) == Sound(env, q) && InTime(env, q.(commit := Some(m))) == InTime(env, q)
    ensures Committed(env, q.(commit := Some(m)), m) == Committed(env, q, m)
  {
    hide ValidAuthority, ValidClaim, CommitIntact, CommitMatchesAuthority;
  }

  // What a minted claim says, against what the caller expected and the human approved.
  predicate SaysWhatWasExpected(env: Env, q: Request, c: Claim) {
    var x, a := q.expected, q.authorization;
    && c.id == x.claimId && c.phase == x.phase && c.sequence == x.sequence == PhaseSequence(x.phase)
    && c.attempt ==
       Attempt(env.attemptHash(a, x.dispatch), a.number, ATTEMPT_CAP, a.hash, a.approval, x.attempt.epochHash)
    && c.epochId == x.epochId && c.head == x.head && c.slot == x.slot
    && c.predecessor == x.predecessor && (c.sequence == 1 <==> c.predecessor == "" && c.predecessorTerminal == "")
    && c.request == x.dispatch.request && c.dispatch == x.dispatch.hash
    && c.createdAt == x.createdAt && c.notAfter == x.notAfter && c.bindings == env.bindings(x, a)
    && c.hash == env.claimHash(c)
    && a.valid && env.authorizationSealed(a) && a.cap == x.dispatch.cap == ATTEMPT_CAP
    && x.dispatch.number == a.number
    && env.authorityBound(x, a) && env.dispatchBound(a, x.dispatch)
  }

  /** What is minted is what was expected and approved, field by field. */
  lemma MintedSaysWhatWasExpected(env: Env, q: Request)
    requires Evaluate(env, q).ExactReplay? && Evaluate(env, q).minted.Some?
    requires !env.validHash("")
    ensures SaysWhatWasExpected(env, q, Evaluate(env, q).minted.value.claim)
  {
    hide CommitIntact, CommitMatchesAuthority, Fresh, TerminalIntact, CapabilityIntact, Follows, IntentWindow;
  }

  // A commit and the claim it is of.
  predicate CommitSays(env: Env, m: Commit, c: Claim) {
    && m.verified && m.integrity == env.sealCommit(m) && m.bytesHash == env.sha256(m.bytes)
    && m.claimId == c.id && m.claimHash == c.hash && m.phase == c.phase && m.sequence == c.sequence
    && m.attempt == c.attempt.hash && m.authorization == c.attempt.authorization && m.approval == c.attempt.approval
    && m.epochHash == c.attempt.epochHash && m.epochId == c.epochId && m.slot == c.slot && m.head == c.head
    && m.request == c.request && m.dispatch == c.dispatch
  }

  // A later claim, the claim before it, and the event that one ended in.
  predicate SucceedsIn(env: Env, p: Claim, e: Terminal, c: Claim) {
    && p.sequence == c.sequence - 1 && p.hash == c.predecessor && p.attempt == c.attempt
    && e.verified && e.status == "succeeded" && e.integrity == env.sealTerminal(e)
    && e.claimHash == p.hash && e.phase == p.phase && e.sequence == p.sequence && e.slot == p.slot
    && e.attempt == c.attempt.hash && e.epochHash == c.attempt.epochHash
    && e.hash == c.predecessorTerminal && e.claimHead == p.head && e.terminalHead == c.head
  }

  /** What is minted was committed as it is, and a later phase is minted only on the intact capability of the phase
      before and the event that says it succeeded, linked to it by hash, slot and head. */
  lemma MintedIsCommittedAndFollows(env: Env, q: Request)
    requires Evaluate(env, q).ExactReplay? && Evaluate(env, q).minted.Some?
    ensures var k := Evaluate(env, q).minted.value;
            && CommitSays(env, k.commit, k.claim) && k.commit.bytes == k.canonical == q.raw
            && (k.claim.sequence > 1 ==>
                  && q.predecessor.Some? && q.terminal.Some?
                  && q.predecessor.value.valid && env.encode(q.predecessor.value.claim) == q.predecessor.value.canonical
                  && SucceedsIn(env, q.predecessor.value.claim, q.terminal.value, k.claim))
            && (k.claim.sequence == 1 ==> q.predecessor.None? && q.terminal.None?)
  {
    hide ValidAuthority, Fresh, PhaseSequence;
    MintedParts(env, q);
  }

  lemma MintedParts(env: Env, q: Request)
    requires Evaluate(env, q).ExactReplay? && Evaluate(env, q).minted.Some?
    ensures var k := Evaluate(env, q).minted.value;
            && q.commit == Some(k.commit) && CommitIntact(env, k.commit) && k.commit.bytes == k.canonical == q.raw
            && CommitMatchesClaim(k.commit, k.claim) && k.claim.sequence == q.expected.sequence
            && ValidClaim(env, q.expected, q.authorization, q.predecessor, q.terminal, k.claim)
  {
    hide ValidAuthority, Fresh, TerminalIntact, CapabilityIntact, Follows, CommitMatchesAuthority;
  }

  /** A capability is minted only from a fresh exact replay of a committed claim, inside all three windows. */
  lemma MintedWhenFresh(env: Env, q: Request)
    requires Evaluate(env, q).ExactReplay?
    ensures var x := q.expected;
            Evaluate(env, q).minted.Some? <==>
            Within(WindowOf(env, x), q.now) && TrustBegun(env.trust, q.now)
    ensures Evaluate(env, q).minted.Some? ==> Evaluate(env, q).minted.value.canonical == q.raw == q.commit.value.bytes
  {
    hide ValidClaim, CommitIntact, CommitMatchesAuthority, IntentFresh;
    var x, a := q.expected, q.authorization;
    OneInstantSuffices(env.trust, ApprovalWindow(env, a), DispatchWindow(env, x.dispatch), WindowOf(env, x), q.now);
  }

  /** Every claim that an evaluation lets through has the phase its sequence number stands for, which is
      what the journal relies on. */
  lemma EvaluatedClaimsAgree(env: Env, q: Request)
    requires Evaluate(env, q).AwaitingCommit? || Evaluate(env, q).ExactReplay?
    ensures var c := env.decode(q.raw);
            c.Some? && 1 <= c.value.sequence <= 3 && c.value.phase == PhaseBySequence(c.value.sequence)
  {
    hide CommitIntact, TerminalIntact, CapabilityIntact, IntentWindow, IntentFresh;
    var c := env.decode(q.raw).value;
    PhasesAreNumbered(c.phase, c.sequence);
    if c.sequence != 1 {
      FollowsIsLater(q.predecessor.value.claim, q.terminal.value, c);
    }
  }
}
