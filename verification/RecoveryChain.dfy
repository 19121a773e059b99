/** Hash-linked recovery records: the last hash of a snapshot pins the whole of it. */
module RecoveryChain {
  import opened Common
  import opened Hashing
  import opened NumberText
  import opened JsonTree
  import opened CanonicalCodec
  import opened Phases

  const FULL_FSYNC := "FULL+fullfsync"

  datatype Record = Record(
    schema: string, hash: string, id: string, sequence: int, kind: string, attempt: string, number: int, cap: int,
    phase: string, claimHash: string, slot: string, epochHash: string, head: string, predecessor: string,
    policy: string, occurredAt: string, payload: string)

  datatype CutPoint =
    | BeforeClaimCommit | AfterClaimCommit | BeforePhaseLaunch | AfterPhaseLaunch
    | BeforeTerminalProof | AfterTerminalProof | BeforeSignature | AfterSignature | BeforeResponse | AfterResponse
    | UnknownCut

  datatype Snapshot = Snapshot(
    verified: bool, integrity: string, currentEpoch: string, recordedEpoch: string,
    attempt: string, number: int, cap: int, phase: string, claimHash: string, slot: string, head: string,
    cut: CutPoint, records: seq<Record>, canonical: seq<seq<byte>>, canonicalHashes: seq<string>)

  // What the checks rest on: the canonical encoding of records, their self-hash, and syntax checks.
  datatype Env = Env(
    parse: string -> Option<int>,
    encode: Record -> seq<byte>,
    decode: seq<byte> -> Option<Record>,
    recordHash: Record -> string,
    sha256: seq<byte> -> string,
    seal: Snapshot -> string,
    validHash: string -> bool,
    validId: string -> bool,
    schema: string)

  function KindFor(sequence: int): string {
    if sequence == 1 then "claim_commit"
    else if sequence == 2 then "phase_launch"
    else if sequence == 3 then "terminal_proof"
    else if sequence == 4 then "attestation_signature"
    else if sequence == 5 then "response"
    else ""
  }

  function PrefixFor(cut: CutPoint): Option<nat> {
    match cut
    case BeforeClaimCommit => Some(0)
    case AfterClaimCommit => Some(1)
    case BeforePhaseLaunch => Some(1)
    case AfterPhaseLaunch => Some(2)
    case BeforeTerminalProof => Some(2)
    case AfterTerminalProof => Some(3)
    case BeforeSignature => Some(3)
    case AfterSignature => Some(4)
    case BeforeResponse => Some(4)
    case AfterResponse => Some(5)
    case UnknownCut => None
  }

  // validateSupervisorRecoveryRecord
  predicate ValidRecord(env: Env, r: Record) {
    && r.schema == env.schema && env.validId(r.id) && 1 <= r.sequence <= 5 && KindFor(r.sequence) == r.kind
    && 1 <= r.number <= ATTEMPT_CAP == r.cap && PhaseSequence(r.phase) != 0 && env.validId(r.slot)
    && r.policy == FULL_FSYNC
    && env.validHash(r.hash) && env.validHash(r.attempt) && env.validHash(r.claimHash) && env.validHash(r.epochHash)
    && env.validHash(r.head) && env.validHash(r.payload)
    && r.hash == env.recordHash(r)
    && (if r.sequence == 1 then r.predecessor == "" else env.validHash(r.predecessor))
    && env.parse(r.occurredAt).Some?
  }

  // The self-hash of a valid record covers every field but itself.
  ghost predicate HashSeals(env: Env) {
    forall r, q :: ValidRecord(env, r) && ValidRecord(env, q) && env.recordHash(r) == env.recordHash(q) ==>
      r.(hash := "") == q.(hash := "")
  }

  predicate HeaderIntact(env: Env, s: Snapshot) {
    && s.verified && env.validHash(s.integrity) && s.integrity == env.seal(s)
    && env.validHash(s.currentEpoch) && env.validHash(s.recordedEpoch) && env.validHash(s.attempt)
    && env.validHash(s.claimHash) && env.validHash(s.head)
    && 1 <= s.number <= ATTEMPT_CAP == s.cap && PhaseSequence(s.phase) != 0 && env.validId(s.slot)
    && PrefixFor(s.cut) == Some(|s.records|) && |s.canonical| == |s.records| == |s.canonicalHashes|
  }

  // What each record satisfies on its own.
  predicate RecordFits(env: Env, s: Snapshot, i: nat)
    requires i < |s.records| == |s.canonical| == |s.canonicalHashes|
  {
    var r := s.records[i];
    && s.canonicalHashes[i] == env.sha256(s.canonical[i]) && env.validHash(s.canonicalHashes[i])
    && env.decode(s.canonical[i]) == Some(r) && ValidRecord(env, r) && r.sequence == i + 1
    && r.attempt == s.attempt && r.number == s.number && r.cap == s.cap && r.phase == s.phase
    && r.claimHash == s.claimHash && r.slot == s.slot && r.epochHash == s.recordedEpoch
  }

  function HashBefore(s: Snapshot, i: nat): string
    requires i <= |s.records|
  {
    if i == 0 then "" else s.records[i - 1].hash
  }

  // And with the record before it.
  predicate RecordLinks(env: Env, s: Snapshot, i: nat)
    requires i < |s.records|
  {
    && s.records[i].predecessor == HashBefore(s, i)
    && (i > 0 ==>
          && env.parse(s.records[i].occurredAt).Some? && env.parse(s.records[i - 1].occurredAt).Some?
          && env.parse(s.records[i - 1].occurredAt).value < env.parse(s.records[i].occurredAt).value)
  }

  // And with all the others.
  predicate RecordsDiffer(s: Snapshot, i: nat, j: nat)
    requires i < |s.records| == |s.canonicalHashes| && j < |s.records|
  {
    var r, q := s.records[i], s.records[j];
    && r.id != q.id && r.hash != q.hash && s.canonicalHashes[i] != s.canonicalHashes[j]
    && r.head != q.head && r.payload != q.payload
  }

  /** verifiedSupervisorRecoverySnapshotIntact, as a property of the snapshot. */
  predicate Intact(env: Env, s: Snapshot) {
    && HeaderIntact(env, s)
    && (forall i :: 0 <= i < |s.records| ==> RecordFits(env, s, i) && RecordLinks(env, s, i))
    && (forall i, j :: 0 <= i < j < |s.records| ==> RecordsDiffer(s, i, j))
    && (s.records != [] ==> s.records[|s.records| - 1].head == s.head)
  }

  // --- The check as the loop that makes it ---

  datatype Seen = Seen(
    ids: set<string>, hashes: set<string>, canonical: set<string>, heads: set<string>, payloads: set<string>)

  ghost predicate SeenUpTo(s: Snapshot, n: nat, seen: Seen)
    requires n <= |s.records| == |s.canonicalHashes|
  {
    && seen.ids == (set i | 0 <= i < n :: s.records[i].id)
    && seen.hashes == (set i | 0 <= i < n :: s.records[i].hash)
    && seen.canonical == (set i | 0 <= i < n :: s.canonicalHashes[i])
    && seen.heads == (set i | 0 <= i < n :: s.records[i].head)
    && seen.payloads == (set i | 0 <= i < n :: s.records[i].payload)
  }

  predicate IsNew(seen: Seen, r: Record, canonicalHash: string) {
    && r.id !in seen.ids && r.hash !in seen.hashes && canonicalHash !in seen.canonical
    && r.head !in seen.heads && r.payload !in seen.payloads
  }

  function See(seen: Seen, r: Record, canonicalHash: string): Seen {
    Seen(seen.ids + {r.id}, seen.hashes + {r.hash}, seen.canonical + {canonicalHash},
         seen.heads + {r.head}, seen.payloads + {r.payload})
  }

  lemma NewIffDiffers(s: Snapshot, n: nat, seen: Seen)
    requires n < |s.records| == |s.canonicalHashes| && SeenUpTo(s, n, seen)
    ensures IsNew(seen, s.records[n], s.canonicalHashes[n]) <==> forall i :: 0 <= i < n ==> RecordsDiffer(s, i, n)
  {
    hide SeenUpTo, IsNew, RecordsDiffer;
    if IsNew(seen, s.records[n], s.canonicalHashes[n]) {
      forall i | 0 <= i < n ensures RecordsDiffer(s, i, n) {
        NewDiffers(s, n, seen, i);
      }
    } else {
      var i := OldIsRepeated(s, n, seen);
    }
  }

  lemma NewDiffers(s: Snapshot, n: nat, seen: Seen, i: nat)
    requires i < n < |s.records| == |s.canonicalHashes| && SeenUpTo(s, n, seen)
             && IsNew(seen, s.records[n], s.canonicalHashes[n])
    ensures RecordsDiffer(s, i, n)
  {
  }

  lemma OldIsRepeated(s: Snapshot, n: nat, seen: Seen) returns (i: nat)
    requires n < |s.records| == |s.canonicalHashes| && SeenUpTo(s, n, seen)
             && !IsNew(seen, s.records[n], s.canonicalHashes[n])
    ensures i < n && !RecordsDiffer(s, i, n)
  {
    var r := s.records[n];
    if r.id in seen.ids {
      i :| 0 <= i < n && s.records[i].id == r.id;
    } else if r.hash in seen.hashes {
      i :| 0 <= i < n && s.records[i].hash == r.hash;
    } else if s.canonicalHashes[n] in seen.canonical {
      i :| 0 <= i < n && s.canonicalHashes[i] == s.canonicalHashes[n];
    } else if r.head in seen.heads {
      i :| 0 <= i < n && s.records[i].head == r.head;
    } else {
      i :| 0 <= i < n && s.records[i].payload == r.payload;
    }
  }

  lemma SeeOneMore(s: Snapshot, n: nat, seen: Seen)
    requires n < |s.records| == |s.canonicalHashes| && SeenUpTo(s, n, seen)
    ensures SeenUpTo(s, n + 1, See(seen, s.records[n], s.canonicalHashes[n]))
  {
  }

  method SnapshotIntact(env: Env, s: Snapshot) returns (ok: bool)
    ensures ok == Intact(env, s)
  {
    hide ValidRecord, SeenUpTo, See, IsNew, RecordsDiffer, PrefixFor, PhaseSequence;
    if !HeaderIntact(env, s) {
      return false;
    }
    var seen := Seen({}, {}, {}, {}, {});
    var previousHash, previousTime := "", 0;
    NothingSeen(s);
    for i := 0 to |s.records|
      invariant SeenUpTo(s, i, seen) && previousHash == HashBefore(s, i)
      invariant forall j :: 0 <= j < i ==> RecordFits(env, s, j) && RecordLinks(env, s, j)
      invariant forall j, k :: 0 <= j < k < i ==> RecordsDiffer(s, j, k)
      invariant i > 0 ==> env.parse(s.records[i - 1].occurredAt) == Some(previousTime)
    {
      if !RecordFits(env, s, i) {
        return false;
      }
      var r := s.records[i];
      ValidRecordParses(env, r);
      var occurredAt := env.parse(r.occurredAt).value;
      if r.predecessor != previousHash || (i > 0 && occurredAt <= previousTime) {
        assert !RecordLinks(env, s, i);
        return false;
      }
      NewIffDiffers(s, i, seen);
      if !IsNew(seen, r, s.canonicalHashes[i]) {
        return false;
      }
      SeeOneMore(s, i, seen);
      seen := See(seen, r, s.canonicalHashes[i]);
      previousHash, previousTime := r.hash, occurredAt;
    }
    return s.records == [] || s.records[|s.records| - 1].head == s.head;
  }

  lemma NothingSeen(s: Snapshot)
    requires |s.records| == |s.canonicalHashes|
    ensures SeenUpTo(s, 0, Seen({}, {}, {}, {}, {}))
  {
  }

  lemma ValidRecordParses(env: Env, r: Record)
    requires ValidRecord(env, r)
    ensures env.parse(r.occurredAt).Some?
  {
  }

  /** The records of an intact snapshot are in strict order of time, however far apart. */
  lemma {:induction false} RecordsMoveForward(env: Env, s: Snapshot, i: nat, j: nat)
    requires Intact(env, s) && i < j < |s.records|
    ensures env.parse(s.records[i].occurredAt).Some? && env.parse(s.records[j].occurredAt).Some?
    ensures env.parse(s.records[i].occurredAt).value < env.parse(s.records[j].occurredAt).value
    decreases j
  {
    hide HeaderIntact, RecordFits, RecordsDiffer;
    assert RecordLinks(env, s, j);
    if i < j - 1 {
      RecordsMoveForward(env, s, i, j - 1);
    }
  }

  const KINDS := ["claim_commit", "phase_launch", "terminal_proof", "attestation_signature", "response"]

  /** The records of an intact snapshot are of the five kinds in their order, and the cut point says how far they go:
      after an effect its record is the last, and before an effect it is the next. */
  lemma CutNamesTheRecords(env: Env, s: Snapshot)
    requires Intact(env, s)
    ensures |s.records| <= 5 && forall i :: 0 <= i < |s.records| ==> s.records[i].kind == KINDS[i]
    ensures var n := |s.records|;
            match s.cut
            case BeforeClaimCommit => n == 0
            case AfterClaimCommit => n > 0 && s.records[n - 1].kind == "claim_commit"
            case BeforePhaseLaunch => n < 5 && KINDS[n] == "phase_launch"
            case AfterPhaseLaunch => n > 0 && s.records[n - 1].kind == "phase_launch"
            case BeforeTerminalProof => n < 5 && KINDS[n] == "terminal_proof"
            case AfterTerminalProof => n > 0 && s.records[n - 1].kind == "terminal_proof"
            case BeforeSignature => n < 5 && KINDS[n] == "attestation_signature"
            case AfterSignature => n > 0 && s.records[n - 1].kind == "attestation_signature"
            case BeforeResponse => n < 5 && KINDS[n] == "response"
            case AfterResponse => n > 0 && s.records[n - 1].kind == "response"
            case UnknownCut => false
  {
    hide PhaseSequence, RecordsDiffer, RecordLinks;
    assert HeaderIntact(env, s) && PrefixFor(s.cut) == Some(|s.records|);
    forall i | 0 <= i < |s.records| ensures s.records[i].kind == KINDS[i] {
      assert RecordFits(env, s, i);
    }
  }

  /** What an intact snapshot says of itself and of each of its records. */
  lemma IntactSays(env: Env, s: Snapshot, i: nat)
    requires Intact(env, s) && i < |s.records|
    ensures s.verified && s.integrity == env.seal(s) && 1 <= s.number <= 2 && s.cap == 2
    ensures |s.canonical| == |s.records| == |s.canonicalHashes|
    ensures env.decode(s.canonical[i]) == Some(s.records[i]) && s.canonicalHashes[i] == env.sha256(s.canonical[i])
    ensures var r := s.records[i];
            && r.sequence == i + 1 && r.hash == env.recordHash(r) && r.schema == env.schema
            && r.policy == "FULL+fullfsync" && env.parse(r.occurredAt).Some?
            && r.attempt == s.attempt && r.number == s.number && r.cap == s.cap && r.phase == s.phase
            && r.claimHash == s.claimHash && r.slot == s.slot && r.epochHash == s.recordedEpoch
            && r.predecessor == (if i == 0 then "" else s.records[i - 1].hash)
            && (i == |s.records| - 1 ==> r.head == s.head)
  {
    hide RecordsDiffer, PhaseSequence, PrefixFor, KindFor;
    assert HeaderIntact(env, s) && RecordFits(env, s, i) && RecordLinks(env, s, i);
  }

  /** No two records of an intact snapshot share an id, a hash, a canonical hash, a head or a payload. */
  lemma RecordsShareNothing(env: Env, s: Snapshot, i: nat, j: nat)
    requires Intact(env, s) && i < |s.records| && j < |s.records| && i != j
    ensures |s.canonicalHashes| == |s.records| && s.canonicalHashes[i] != s.canonicalHashes[j]
    ensures s.records[i].id != s.records[j].id && s.records[i].hash != s.records[j].hash
    ensures s.records[i].head != s.records[j].head && s.records[i].payload != s.records[j].payload
  {
    hide RecordFits, RecordLinks;
    assert if i < j then RecordsDiffer(s, i, j) else RecordsDiffer(s, j, i);
  }

  // --- The last hash pins the history ---

  lemma SameHashSameRecord(env: Env, r: Record, q: Record)
    requires HashSeals(env) && ValidRecord(env, r) && ValidRecord(env, q) && r.hash == q.hash
    ensures r == q
  {
  }

  lemma {:induction false} CommonHistory(env: Env, s: Snapshot, t: Snapshot, n: nat)
    requires HashSeals(env) && Intact(env, s) && Intact(env, t) && n < |s.records| && n < |t.records|
    requires s.records[n].hash == t.records[n].hash
    ensures s.records[..n + 1] == t.records[..n + 1]
    decreases n
  {
    hide ValidRecord, HeaderIntact, RecordsDiffer, HashSeals;
    IntactParts(env, s);
    IntactParts(env, t);
    assert RecordFits(env, s, n) && RecordFits(env, t, n);
    SameHashSameRecord(env, s.records[n], t.records[n]);
    if n > 0 {
      assert RecordLinks(env, s, n) && RecordLinks(env, t, n);
      CommonHistory(env, s, t, n - 1);
    }
    assert s.records[..n + 1] == s.records[..n] + [s.records[n]];
    assert t.records[..n + 1] == t.records[..n] + [t.records[n]];
  }

  lemma IntactParts(env: Env, s: Snapshot)
    requires Intact(env, s)
    ensures |s.canonical| == |s.records| == |s.canonicalHashes|
  {
  }

  /** A snapshot whose last hash occurs in another is a prefix of it, record for record. */
  lemma LastHashPinsHistory(env: Env, s: Snapshot, t: Snapshot, n: nat)
    requires HashSeals(env) && Intact(env, s) && Intact(env, t)
    requires s.records != [] && n < |t.records| && s.records[|s.records| - 1].hash == t.records[n].hash
    ensures n == |s.records| - 1 && s.records == t.records[..n + 1]
    ensures s.attempt == t.attempt && s.claimHash == t.claimHash && s.slot == t.slot
            && s.recordedEpoch == t.recordedEpoch && s.number == t.number && s.cap == t.cap && s.phase == t.phase
  {
    hide ValidRecord, HeaderIntact, RecordsDiffer, HashSeals;
    var m := |s.records| - 1;
    IntactParts(env, s);
    IntactParts(env, t);
    assert RecordFits(env, s, m) && RecordFits(env, t, n);
    SameHashSameRecord(env, s.records[m], t.records[n]);
    assert m == n;
    CommonHistory(env, s, t, n);
    assert s.records[..n + 1] == s.records;
  }

  /** Two intact snapshots end in the same hash exactly when they hold the same records. */
  lemma SameLastHashSameRecords(env: Env, s: Snapshot, t: Snapshot)
    requires HashSeals(env) && Intact(env, s) && Intact(env, t)
    requires s.records != [] && t.records != []
    ensures s.records[|s.records| - 1].hash == t.records[|t.records| - 1].hash <==> s.records == t.records
  {
    if s.records[|s.records| - 1].hash == t.records[|t.records| - 1].hash {
      LastHashPinsHistory(env, s, t, |t.records| - 1);
      assert t.records[..|t.records|] == t.records;
    }
  }

  // --- The bytes of a record ---

  // The first n records were stored in their own encoding, with no member left out or spelt otherwise.
  predicate OwnEncodings(env: Env, s: Snapshot, n: nat)
    requires n <= |s.records| == |s.canonical|
  {
    forall i :: 0 <= i < n ==> s.canonical[i] == env.encode(s.records[i])
  }

  /** The last hash pins the records, and not always their bytes, since decoding into a Go struct forgives
      an omitted member. Where one of the two snapshots stores its records in their own encoding, the bytes
      agree exactly when the other one does too. */
  lemma SameBytesIffOwnEncodings(env: Env, s: Snapshot, t: Snapshot, n: nat)
    requires HashSeals(env) && Intact(env, s) && Intact(env, t)
    requires s.records != [] && n < |t.records| && s.records[|s.records| - 1].hash == t.records[n].hash
    ensures |s.canonical| == |s.records| == n + 1 && |t.canonical| == |t.records|
    ensures OwnEncodings(env, t, n + 1) ==> (s.canonical == t.canonical[..n + 1] <==> OwnEncodings(env, s, n + 1))
    ensures OwnEncodings(env, s, n + 1) ==> (s.canonical == t.canonical[..n + 1] <==> OwnEncodings(env, t, n + 1))
  {
    hide Intact, HashSeals;
    IntactParts(env, s);
    IntactParts(env, t);
    LastHashPinsHistory(env, s, t, n);
    assert forall i :: 0 <= i <= n ==> s.records[i] == t.records[i] && t.canonical[..n + 1][i] == t.canonical[i];
  }

  /** In every case it is the canonical record hashes that pin the bytes. */
  lemma SameBytesIffSameCanonicalHashes(env: Env, s: Snapshot, t: Snapshot, n: nat)
    requires (forall x, y :: env.sha256(x) == env.sha256(y) ==> x == y) && Intact(env, s) && Intact(env, t)
    requires |s.records| == n <= |t.records|
    ensures |s.canonical| == |s.canonicalHashes| == n <= |t.canonical| == |t.canonicalHashes|
    ensures s.canonical == t.canonical[..n] <==> s.canonicalHashes == t.canonicalHashes[..n]
  {
    hide ValidRecord, HeaderIntact, RecordsDiffer, RecordLinks;
    IntactParts(env, s);
    IntactParts(env, t);
    forall i | 0 <= i < n
      ensures s.canonicalHashes[i] == env.sha256(s.canonical[i]) && t.canonicalHashes[i] == env.sha256(t.canonical[i])
    {
      assert RecordFits(env, s, i) && RecordFits(env, t, i);
    }
    if s.canonicalHashes == t.canonicalHashes[..n] {
      forall i | 0 <= i < n ensures s.canonical[i] == t.canonical[i] {
        assert s.canonicalHashes[i] == t.canonicalHashes[..n][i];
      }
    }
  }

  const ONLY := Record(
    "schema", "hash", "id", 1, "claim_commit", "attempt", 1, ATTEMPT_CAP, MATERIALIZATION, "claim", "slot", "epoch",
    "head", "", FULL_FSYNC, "now", "payload")

  const PREDECESSOR := "predecessor_record_hash"

  // Records in canonical bytes; only one of them has a valid hash.
  ghost function Forgiving(fl: Floats, layout: Record -> map<string, Json>, read: map<string, Json> -> Option<Record>)
    : Env
  {
    Env((_: string) => Some(0), (r: Record) => EncodeStruct(fl, layout, r), (b: seq<byte>) => DecodeStruct(fl, read, b),
        (r: Record) => if r == ONLY then "hash" else "",
        (b: seq<byte>) => if b == EncodeStruct(fl, layout, ONLY) then "first" else "second", (_: Snapshot) => "seal",
        (h: string) => h != "", (_: string) => true, "schema")
  }

  function StoredAs(raw: seq<byte>, hash: string): Snapshot {
    Snapshot(true, "seal", "epoch", "epoch", "attempt", 1, ATTEMPT_CAP, MATERIALIZATION, "claim", "slot", "head",
             AfterClaimCommit, [ONLY], [raw], [hash])
  }

  lemma StoredAsIsIntact(env: Env, raw: seq<byte>)
    requires env.schema == "schema" && env.recordHash(ONLY) == "hash" && env.parse("now").Some?
    requires (forall h :: env.validHash(h) <==> h != "") && (forall id :: env.validId(id))
    requires env.decode(raw) == Some(ONLY) && env.sha256(raw) != ""
    requires env.seal(StoredAs(raw, env.sha256(raw))) == "seal"
    ensures Intact(env, StoredAs(raw, env.sha256(raw)))
  {
    assert |"seal"| == 4 && |"epoch"| == 5 && |"attempt"| == 7 && |"claim"| == 5 && |"head"| == 4;
    assert |"hash"| == 4 && |"payload"| == 7;
    assert ValidRecord(env, ONLY);
  }

  /** The canonical bytes of a first record with its empty predecessor written out, and those with that member left
      out: two intact snapshots with the same last hash, the same records, and different bytes. */
  lemma OmittedMemberChangesOnlyBytes(
      fl: Floats, layout: Record -> map<string, Json>, read: map<string, Json> -> Option<Record>)
    requires Lawful(fl) && ExactIntegers(fl) && LaidOut(layout, read, ONLY) && Forgives(read, PREDECESSOR)
    requires PREDECESSOR in layout(ONLY) && layout(ONLY)[PREDECESSOR] == Str("")
    ensures var env := Forgiving(fl, layout, read);
            var s := StoredAs(EncodeStruct(fl, layout, ONLY), "first");
            var t := StoredAs(ShortStruct(fl, layout, ONLY, PREDECESSOR), "second");
            && HashSeals(env) && Intact(env, s) && Intact(env, t)
            && s.records == t.records && s.canonical != t.canonical
  {
    hide EncodeStruct, DecodeStruct, ShortStruct, LaidOut, Forgives, Intact, Lawful, ExactIntegers;
    var env := Forgiving(fl, layout, read);
    var full, short := EncodeStruct(fl, layout, ONLY), ShortStruct(fl, layout, ONLY, PREDECESSOR);
    StructReads(fl, layout, read, ONLY);
    ShortStructReads(fl, layout, read, ONLY, PREDECESSOR);
    assert |"first"| == 5 && |"second"| == 6;
    StoredAsIsIntact(env, full);
    StoredAsIsIntact(env, short);
    assert StoredAs(full, "first").canonical[0] != StoredAs(short, "second").canonical[0];
  }

  /** hashRecord seals what it covers: given any way of laying records out as JSON objects of strings and
      small integers that loses nothing, an ideal hash makes the self-hash cover every other field. */
  lemma CanonicalHashSeals(env: Env, h: Hash, fl: Floats, own: string, layout: Record -> map<string, Json>)
    requires Ideal(h) && Lawful(fl) && ExactIntegers(fl) && own != ""
    requires forall r :: ValidRecord(env, r) ==> own in layout(r) && IntegerTree(Obj(layout(r)))
    requires forall r, q :: layout(r) - {own} == layout(q) - {own} ==> r.(hash := "") == q.(hash := "")
    requires forall r :: ValidRecord(env, r) ==> HashRecord(h, fl, Obj(layout(r)), own) == Some(env.recordHash(r))
    ensures HashSeals(env)
  {
    hide IntegerTree, HashRecord, ValidRecord;
    forall r, q | ValidRecord(env, r) && ValidRecord(env, q) && env.recordHash(r) == env.recordHash(q)
      ensures r.(hash := "") == q.(hash := "")
    {
      assert IntegerTree(Obj(layout(r))) && IntegerTree(Obj(layout(q)));
      IntegerRecordsHaveTheirOwnHash(h, fl, layout(r), layout(q), own);
    }
  }

  // --- Classification ---

  datatype Action = StatusOnly | ReplayResponse | OtherAction

  datatype Disposition = NoDurableClaim | WaitingForHuman | CurrentEpochStatusOnly | TerminalStatus | ResponseReplay

  datatype Requirement =
    | FreshLiveIntent | HumanReview | LiveCommitConfirmation | AttestationStatus | ResponseStatus | NoFurtherEffect

  // ClassifySupervisorRecovery on an intact snapshot; None is an error.
  function Classify(s: Snapshot, action: Action): Option<(Disposition, Requirement)> {
    match PrefixFor(s.cut)
    case None => None
    case Some(count) =>
      if action != (if count == 5 then ReplayResponse else StatusOnly) then None
      else if count == 0 then Some((NoDurableClaim, FreshLiveIntent))
      else if count <= 2 && s.recordedEpoch != s.currentEpoch then Some((WaitingForHuman, HumanReview))
      else if count <= 2 then Some((CurrentEpochStatusOnly, LiveCommitConfirmation))
      else if count <= 3 then Some((TerminalStatus, AttestationStatus))
      else if count == 4 then Some((TerminalStatus, ResponseStatus))
      else Some((ResponseReplay, NoFurtherEffect))
  }

  /** Recovery of an intact snapshot is answered exactly when the action is to replay the response, with all five
      records there, or else to ask for the status. */
  lemma AnsweredIff(env: Env, s: Snapshot, action: Action)
    requires Intact(env, s)
    ensures Classify(s, action).Some? <==>
            (action == ReplayResponse && |s.records| == 5) || (action == StatusOnly && |s.records| < 5)
  {
    hide RecordFits, RecordLinks, RecordsDiffer;
  }

  /** What is asked for next: a fresh intent when nothing is durable; a human when the claim is of an earlier epoch and
      has no terminal proof, and the live commit when it is of this one; then the attestation, the response, and at
      last nothing. */
  lemma RequirementIs(env: Env, s: Snapshot, action: Action)
    requires Intact(env, s) && Classify(s, action).Some?
    ensures var (d, need) := Classify(s, action).value; var n := |s.records|;
            && (need == FreshLiveIntent <==> n == 0)
            && (need == HumanReview <==> 1 <= n <= 2 && s.recordedEpoch != s.currentEpoch)
            && (need == LiveCommitConfirmation <==> 1 <= n <= 2 && s.recordedEpoch == s.currentEpoch)
            && (need == AttestationStatus <==> n == 3)
            && (need == ResponseStatus <==> n == 4)
            && (need == NoFurtherEffect <==> n == 5)
            && (d == NoDurableClaim <==> n == 0) && (d == CurrentEpochStatusOnly <==> need == LiveCommitConfirmation)
            && (d == TerminalStatus <==> 3 <= n <= 4)
  {
    hide RecordFits, RecordLinks, RecordsDiffer;
  }

  function Stage(d: Disposition): nat {
    match d
    case NoDurableClaim => 0
    case WaitingForHuman => 1
    case CurrentEpochStatusOnly => 1
    case TerminalStatus => 2
    case ResponseReplay => 3
  }

  /** Observing a longer history of the same claim never moves recovery back, and a claim waits for a human
      exactly when it was recorded in an earlier epoch and has no terminal proof yet. */
  lemma RecoveryMovesForward(env: Env, s: Snapshot, t: Snapshot, a: Action, b: Action)
    requires Intact(env, s) && Intact(env, t) && s.records <= t.records
    requires Classify(s, a).Some? && Classify(t, b).Some?
    ensures Stage(Classify(s, a).value.0) <= Stage(Classify(t, b).value.0)
    ensures Classify(s, a).value.0 == WaitingForHuman <==> 1 <= |s.records| <= 2 && s.recordedEpoch != s.currentEpoch
    ensures Classify(s, a).value.0 == ResponseReplay <==> |s.records| == 5
  {
  }
}
