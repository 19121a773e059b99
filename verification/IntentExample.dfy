/** All three phases can be minted: the rules on capabilities are not kept for want of any. */
module IntentExample {
  import opened Common
  import opened AuthorityWindows
  import opened Phases
  import opened SupervisorIntent
  import opened NumberText
  import opened JsonTree
  import CanonicalCodec

  // Instants are written as tally marks.
  function Tally(s: string): Option<int> { Some(|s|) }

  const ATTEMPT := Attempt("attempt", 1, ATTEMPT_CAP, "authorization", "approval", "epoch")

  function PhaseAt(n: int): string { if n == 1 then MATERIALIZATION else if n == 2 then ADAPTER else TEST }

  function HashAt(n: int): string { if n == 1 then "claim1" else if n == 2 then "claim2" else "claim3" }

  function ClaimAt(n: int): Claim {
    Claim(HashAt(n), "id", PhaseAt(n), n, ATTEMPT, "boot",
          if n == 1 then "" else HashAt(n - 1), if n == 1 then "" else "terminal",
          "head", "slot", "request", "dispatch", "", "||", "")
  }

  // How claims are written and read; the bytes of the three claims read back.
  datatype Codec = Codec(encode: Claim -> seq<byte>, decode: seq<byte> -> Option<Claim>)

  ghost predicate ReadsBack(c: Codec) {
    forall n :: 1 <= n <= 3 ==> c.decode(c.encode(ClaimAt(n))) == Some(ClaimAt(n))
  }

  // The simplest: a claim is written as its sequence number.
  const TALLIED := Codec((c: Claim) => if 1 <= c.sequence <= 3 then [c.sequence] else [], ReadTallied)

  function ReadTallied(raw: seq<byte>): Option<Claim> {
    if |raw| == 1 && 1 <= raw[0] <= 3 then Some(ClaimAt(raw[0])) else None
  }

  lemma TalliedReadsBack()
    ensures ReadsBack(TALLIED)
  {
    forall n | 1 <= n <= 3 ensures TALLIED.decode(TALLIED.encode(ClaimAt(n))) == Some(ClaimAt(n)) {
      assert TALLIED.encode(ClaimAt(n)) == [n];
    }
  }

  function EnvOf(c: Codec): Env {
    Env([], Tally, c.encode, c.decode, (k: Claim) => k.hash, (_: seq<byte>) => "", (_: Commit) => "",
        (_: Terminal) => "", (_: string) => true, (_: string) => true, (_: Authorization) => true,
        (_: Authorization, _: Dispatch) => "attempt", (_: Authority, _: Authorization) => true,
        (_: Authorization, _: Dispatch) => true, (_: Authority, _: Authorization) => "")
  }

  const DISPATCH := Dispatch("dispatch", "request", 1, ATTEMPT_CAP, "", "|||", "")
  const AUTHORIZATION := Authorization(true, "authorization", "approval", 1, ATTEMPT_CAP, "", "||||", "")

  function AuthorityAt(n: int): Authority {
    var c := ClaimAt(n);
    Authority("id", c.phase, n, ATTEMPT, "boot", c.predecessor, "head", "slot", "", "||", DISPATCH, "")
  }

  // The claim of phase n, committed as `raw`.
  function CommitAt(n: int, raw: seq<byte>): Commit {
    Commit(true, PhaseAt(n), n, "attempt", "authorization", "approval", "boot", "epoch", "slot", "head", "id",
           HashAt(n), "request", "dispatch", raw, "", "")
  }

  function TerminalAt(n: int): Terminal {
    Terminal(true, "attempt", PhaseAt(n), n, HashAt(n), "terminal", "epoch", "slot", "head", "head", SUCCEEDED, "")
  }

  function CapabilityAt(n: int, raw: seq<byte>): Capability { Capability(true, ClaimAt(n), raw, CommitAt(n, raw)) }

  function RequestAt(n: int, raw: seq<byte>, predecessor: Option<Capability>): Request {
    Request(AuthorityAt(n), AUTHORIZATION, Some(CommitAt(n, raw)), predecessor,
            if n == 1 then None else Some(TerminalAt(n - 1)), raw, 0)
  }

  lemma PhaseIs(n: int)
    requires 1 <= n <= 3
    ensures PhaseSequence(PhaseAt(n)) == n
  {
  }

  lemma WindowsAreOpen(env: Env, n: int)
    requires env.parse == Tally
    ensures IntentWindow([], ApprovalWindow(env, AUTHORIZATION), DispatchWindow(env, DISPATCH),
                         WindowOf(env, AuthorityAt(n)))
    ensures IntentFresh([], ApprovalWindow(env, AUTHORIZATION), DispatchWindow(env, DISPATCH),
                        WindowOf(env, AuthorityAt(n)), 0)
  {
  }

  lemma AuthorityIsValid(c: Codec, n: int)
    requires 1 <= n <= 3
    ensures ValidAuthority(EnvOf(c), AuthorityAt(n), AUTHORIZATION)
    ensures Fresh(EnvOf(c), AuthorityAt(n), AUTHORIZATION, 0)
  {
    hide IntentWindow, IntentFresh, PhaseSequence, PhaseAt, HashAt;
    PhaseIs(n);
    WindowsAreOpen(EnvOf(c), n);
    assert |"attempt"| == 7;
  }

  lemma CommitIsIntact(c: Codec, n: int, raw: seq<byte>)
    requires 1 <= n <= 3 && c.decode(raw) == Some(ClaimAt(n))
    ensures CommitIntact(EnvOf(c), CommitAt(n, raw))
    ensures CommitMatchesAuthority(CommitAt(n, raw), AuthorityAt(n), AUTHORIZATION)
    ensures CapabilityIntact(EnvOf(c), CapabilityAt(n, raw)) <==> c.encode(ClaimAt(n)) == raw
  {
    hide PhaseSequence, PhaseAt, HashAt;
    PhaseIs(n);
    assert EnvOf(c).decode(raw) == Some(ClaimAt(n));
  }

  // The predecessor is an intact capability of the phase before.
  ghost predicate ComesFrom(c: Codec, n: int, p: Option<Capability>) {
    if n == 1 then p.None?
    else p.Some? && p.value.claim == ClaimAt(n - 1) && CapabilityIntact(EnvOf(c), p.value)
  }

  lemma ClaimIsValid(c: Codec, n: int, p: Option<Capability>)
    requires 1 <= n <= 3 && ComesFrom(c, n, p)
    ensures ValidClaim(EnvOf(c), AuthorityAt(n), AUTHORIZATION, p, RequestAt(n, [], p).terminal, ClaimAt(n))
  {
    hide PhaseSequence, PhaseAt, HashAt, CapabilityIntact;
    if n > 1 {
      PhaseIs(n - 1);
    }
  }

  lemma PhaseIsMinted(c: Codec, n: int, raw: seq<byte>, p: Option<Capability>)
    requires 1 <= n <= 3 && c.decode(raw) == Some(ClaimAt(n)) && ComesFrom(c, n, p)
    ensures Evaluate(EnvOf(c), RequestAt(n, raw, p)) == ExactReplay(Some(CapabilityAt(n, raw)))
  {
    hide ValidAuthority, Fresh, CommitIntact, CommitMatchesAuthority, ValidClaim, CapabilityIntact, ComesFrom;
    AuthorityIsValid(c, n);
    CommitIsIntact(c, n, raw);
    ClaimIsValid(c, n, p);
    assert EnvOf(c).decode(raw) == Some(ClaimAt(n));
  }

  function OwnCapability(c: Codec, n: int): Capability { CapabilityAt(n, c.encode(ClaimAt(n))) }

  function OwnRequest(c: Codec, n: int): Request {
    RequestAt(n, c.encode(ClaimAt(n)), if n == 1 then None else Some(OwnCapability(c, n - 1)))
  }

  lemma OwnRequestMints(c: Codec, n: int)
    requires 1 <= n <= 3 && ReadsBack(c)
    ensures Evaluate(EnvOf(c), OwnRequest(c, n)) == ExactReplay(Some(OwnCapability(c, n)))
  {
    hide Evaluate, EnvOf, ClaimAt, CapabilityIntact;
    if n > 1 {
      CommitIsIntact(c, n - 1, c.encode(ClaimAt(n - 1)));
    }
    PhaseIsMinted(c, n, c.encode(ClaimAt(n)), OwnRequest(c, n).predecessor);
  }

  /** Before its commit is there, each of these claims awaits it. */
  lemma OwnRequestAwaits(c: Codec, n: int)
    requires 1 <= n <= 3 && ReadsBack(c)
    ensures Evaluate(EnvOf(c), OwnRequest(c, n).(commit := None)) == AwaitingCommit
  {
    hide Evaluate, EnvOf, OwnRequest, OwnCapability, ReadsBack, Sound, InTime, Committed;
    OwnRequestMints(c, n);
    var q := OwnRequest(c, n);
    MintedIff(EnvOf(c), q);
    AwaitingIff(EnvOf(c), q.(commit := None));
    SameButForCommit(EnvOf(c), q.(commit := None), q.commit.value);
    assert q.(commit := None).(commit := Some(q.commit.value)) == q;
  }

  /** Three evaluations, each presenting only what was minted before it, mint the capabilities for all three
      phases. */
  lemma AllPhasesCanBeMinted(c: Codec)
    requires ReadsBack(c)
    ensures var qs := [OwnRequest(c, 1), OwnRequest(c, 2), OwnRequest(c, 3)];
            && Possible(EnvOf(c), qs)
            && MintAll(EnvOf(c), qs) == [OwnCapability(c, 1), OwnCapability(c, 2), OwnCapability(c, 3)]
  {
    hide Evaluate, EnvOf, OwnCapability, RequestAt, ReadsBack;
    OwnRequestMints(c, 1);
    OwnRequestMints(c, 2);
    OwnRequestMints(c, 3);
    PredecessorIs(c, 1);
    PredecessorIs(c, 2);
    PredecessorIs(c, 3);
    hide OwnRequest;
    var env, q1, q2, q3 := EnvOf(c), OwnRequest(c, 1), OwnRequest(c, 2), OwnRequest(c, 3);
    var qs := [q1, q2, q3];
    assert qs[..2] == [q1, q2] && qs[..2][..1] == [q1] && [q1][..0] == [];
    assert MintAll(env, []) == [] && Possible(env, []);
    assert MintAll(env, [q1]) == [OwnCapability(c, 1)] && Possible(env, [q1]);
    assert MintAll(env, qs[..2]) == [OwnCapability(c, 1), OwnCapability(c, 2)] && Possible(env, qs[..2]);
  }

  lemma PredecessorIs(c: Codec, n: int)
    ensures OwnRequest(c, n).predecessor == if n == 1 then None else Some(OwnCapability(c, n - 1))
  {
  }

  // --- Committed bytes with a member left out ---

  const PREDECESSOR := "predecessor_claim_hash"

  // Claims in canonical bytes, and the first claim with its empty predecessor left out.
  ghost function Canonical(fl: Floats, layout: Claim -> map<string, Json>, read: map<string, Json> -> Option<Claim>)
    : Codec
  {
    Codec((k: Claim) => CanonicalCodec.EncodeStruct(fl, layout, k),
          (raw: seq<byte>) => CanonicalCodec.DecodeStruct(fl, read, raw))
  }

  ghost function ShortText(fl: Floats, layout: Claim -> map<string, Json>): seq<byte> {
    CanonicalCodec.ShortStruct(fl, layout, ClaimAt(1), PREDECESSOR)
  }

  /** A committed first claim whose canonical bytes leave out its empty predecessor mints a capability that is not
      intact: no evaluation of any request accepts it as predecessor. */
  lemma OmittedMembersMintADeadEnd(
      fl: Floats, layout: Claim -> map<string, Json>, read: map<string, Json> -> Option<Claim>, q: Request)
    requires Lawful(fl) && ExactIntegers(fl)
    requires CanonicalCodec.LaidOut(layout, read, ClaimAt(1)) && CanonicalCodec.Forgives(read, PREDECESSOR)
    requires PREDECESSOR in layout(ClaimAt(1)) && layout(ClaimAt(1))[PREDECESSOR] == Str("")
    ensures var env := EnvOf(Canonical(fl, layout, read)); var short := ShortText(fl, layout);
            && Evaluate(env, RequestAt(1, short, None)) == ExactReplay(Some(CapabilityAt(1, short)))
            && !CapabilityIntact(env, CapabilityAt(1, short))
            && (q.predecessor == Some(CapabilityAt(1, short)) ==>
                  Evaluate(env, q).Invalid? || Evaluate(env, q).Conflict?)
  {
    hide Evaluate, CapabilityIntact, CapabilityAt, RequestAt, EnvOf, ClaimAt, Lawful, ExactIntegers;
    hide CanonicalCodec.LaidOut, CanonicalCodec.Forgives;
    var c, short := Canonical(fl, layout, read), ShortText(fl, layout);
    CanonicalCodec.StructReads(fl, layout, read, ClaimAt(1));
    CanonicalCodec.ShortStructReads(fl, layout, read, ClaimAt(1), PREDECESSOR);
    hide CanonicalCodec.EncodeStruct, CanonicalCodec.DecodeStruct, CanonicalCodec.ShortStruct;
    PhaseIsMinted(c, 1, short, None);
    CommitIsIntact(c, 1, short);
    if q.predecessor == Some(CapabilityAt(1, short)) {
      BrokenPredecessorIsRefused(EnvOf(c), q);
    }
  }
}
