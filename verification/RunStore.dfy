/**
 The durable run row and the store calls the daemon makes on it. Every call is one SQLite
 transaction, so it is a function from the old row to the new one, or `None` when it is
 refused and changes nothing.
 */
module RunStore {
  import opened Common

  datatype State =
    | Created | Running | Cancelling | CleanupRequired | RecoveryUnknown
    | Completed | Failed | Cancelled

  predicate IsTerminal(s: State) { s.Completed? || s.Failed? || s.Cancelled? }

  // The adjacency table of the cleanup state machine.
  predicate CanTransition(from: State, to: State) {
    match from
    case Created => to in {Running, CleanupRequired, RecoveryUnknown}
    case Running => to in {Cancelling, CleanupRequired, RecoveryUnknown, Completed, Failed, Cancelled}
    case Cancelling => to in {Cancelled, RecoveryUnknown, CleanupRequired, Running}
    case CleanupRequired => to in {Failed, Cancelled, RecoveryUnknown}
    case RecoveryUnknown => to in {Running, CleanupRequired, Cancelling, Completed, Failed, Cancelled}
    case _ => false
  }

  // A stored event; its sequence number is its place in `Run.events`, counted from 1.
  datatype Event = Event(kind: string, payload: seq<byte>, offset: nat)

  // `visited` holds every state the row has been in, oldest first; `finalSize` is -1 until sealed.
  datatype Run = Run(
    state: State,
    visited: seq<State>,
    cancelRequested: bool,
    required: bool,
    identityValid: bool,
    consumed: nat,
    finalSize: int,
    events: seq<Event>,
    outbox: bool)

  predicate WithinSeal(r: Run, offset: nat) { r.finalSize < 0 || offset <= r.finalSize }

  function AppendEvent(r: Run, kind: string, payload: seq<byte>, offset: nat): Option<Run> {
    if WithinSeal(r, offset) then
      Some(r.(events := r.events + [Event(kind, payload, offset)], consumed := Max(r.consumed, offset)))
    else None
  }

  function AdvanceConsumed(r: Run, offset: nat): Option<Run> {
    if WithinSeal(r, offset) then Some(r.(consumed := Max(r.consumed, offset))) else None
  }

  function SealTranscript(r: Run, size: nat): Option<Run> {
    if r.finalSize >= 0 then (if r.finalSize == size then Some(r) else None)
    else Some(r.(finalSize := size))
  }

  function MoveTo(r: Run, to: State): Run { r.(state := to, visited := r.visited + [to]) }

  function Transition(r: Run, to: State): Option<Run> {
    if IsTerminal(to) || !CanTransition(r.state, to) then None else Some(MoveTo(r, to))
  }

  // A terminal commit writes the outbox row in the same transaction.
  function CommitTerminal(r: Run, to: State): Option<Run> {
    if !IsTerminal(to) || (to.Completed? && r.cancelRequested) || !CanTransition(r.state, to) then None
    else if r.required && (r.finalSize < 0 || r.consumed != r.finalSize || !r.identityValid) then None
    else Some(MoveTo(r, to).(outbox := true))
  }

  // A launch that proved no process exists: `noPids` is what the row's pids say. The transcript identity is
  // cleared, and a required transcript is sealed empty.
  function CommitNoProcessFailure(r: Run, noPids: bool): Option<Run> {
    if !noPids || !(r.state.Created? || r.state.Running?) then None
    else
      var q := if r.required then r.(consumed := 0, finalSize := 0) else r;
      Some(MoveTo(q, Failed).(identityValid := false, outbox := true))
  }

  function RequestCancellation(r: Run): Option<Run> {
    if IsTerminal(r.state) then None
    else if r.state.Running? then Some(MoveTo(r, Cancelling).(cancelRequested := true))
    else Some(r.(cancelRequested := true))
  }

  /** What every row keeps: a terminal required run is sealed and fully consumed, a terminal run has its
      outbox row, and a run asked to cancel has not completed. */
  ghost predicate Consistent(r: Run) {
    && r.state in r.visited
    && (r.required && IsTerminal(r.state) ==> r.finalSize >= 0 && r.consumed == r.finalSize)
    && (IsTerminal(r.state) ==> r.outbox)
    && (r.state.Completed? ==> !r.cancelRequested)
  }

  // Events, visited states and a terminal state stay.
  ghost predicate KeepsRecord(r: Run, q: Run) {
    && r.events <= q.events
    && r.visited <= q.visited
    && (IsTerminal(r.state) ==> q.state == r.state)
    && (r.cancelRequested ==> q.cancelRequested)
    && q.required == r.required
  }

  /** `q` can follow `r` in the life of one launched row: nothing stored is taken back. */
  ghost predicate Follows(r: Run, q: Run) {
    && KeepsRecord(r, q)
    && r.consumed <= q.consumed
    && (r.finalSize >= 0 ==> q.finalSize == r.finalSize)
    && q.identityValid == r.identityValid
  }

  datatype Call =
    | AppendCall(kind: string, payload: seq<byte>, offset: nat)
    | AdvanceCall(offset: nat)
    | SealCall(size: nat)
    | TransitionCall(to: State)
    | CommitCall(to: State)
    | NoProcessCall(noPids: bool)
    | CancelCall

  function Apply(r: Run, c: Call): Option<Run> {
    match c
    case AppendCall(kind, payload, offset) => AppendEvent(r, kind, payload, offset)
    case AdvanceCall(offset) => AdvanceConsumed(r, offset)
    case SealCall(size) => SealTranscript(r, size)
    case TransitionCall(to) => Transition(r, to)
    case CommitCall(to) => CommitTerminal(r, to)
    case NoProcessCall(noPids) => CommitNoProcessFailure(r, noPids)
    case CancelCall => RequestCancellation(r)
  }

  // Refused calls leave the row alone.
  function ApplyAll(r: Run, calls: seq<Call>): Run
    decreases calls
  {
    if calls == [] then r
    else
      var next := match Apply(r, calls[0]) case Some(q) => q case None => r;
      ApplyAll(next, calls[1..])
  }

  lemma AppendKeepsRow(r: Run, kind: string, payload: seq<byte>, offset: nat)
    requires Consistent(r) && AppendEvent(r, kind, payload, offset).Some?
    ensures var q := AppendEvent(r, kind, payload, offset).value; Consistent(q) && Follows(r, q)
  {
  }

  lemma AdvanceKeepsRow(r: Run, offset: nat)
    requires Consistent(r) && AdvanceConsumed(r, offset).Some?
    ensures var q := AdvanceConsumed(r, offset).value; Consistent(q) && Follows(r, q)
  {
  }

  lemma SealKeepsRow(r: Run, size: nat)
    requires Consistent(r) && SealTranscript(r, size).Some?
    ensures var q := SealTranscript(r, size).value; Consistent(q) && Follows(r, q)
  {
  }

  lemma MoveKeepsRecord(r: Run, to: State)
    ensures r.visited <= MoveTo(r, to).visited && to in MoveTo(r, to).visited
  {
  }

  lemma TransitionKeepsRow(r: Run, to: State)
    requires Consistent(r) && Transition(r, to).Some?
    ensures var q := Transition(r, to).value; Consistent(q) && Follows(r, q)
  {
    MoveKeepsRecord(r, to);
  }

  lemma CommitKeepsRow(r: Run, to: State)
    requires Consistent(r) && CommitTerminal(r, to).Some?
    ensures var q := CommitTerminal(r, to).value; Consistent(q) && Follows(r, q)
  {
    MoveKeepsRecord(r, to);
  }

  lemma NoProcessKeepsRow(r: Run, noPids: bool)
    requires Consistent(r) && CommitNoProcessFailure(r, noPids).Some?
    ensures var q := CommitNoProcessFailure(r, noPids).value; Consistent(q) && KeepsRecord(r, q)
  {
    MoveKeepsRecord(r, Failed);
  }

  lemma CancelKeepsRow(r: Run)
    requires Consistent(r) && RequestCancellation(r).Some?
    ensures var q := RequestCancellation(r).value; Consistent(q) && Follows(r, q)
  {
    MoveKeepsRecord(r, Cancelling);
  }

  lemma ApplyKeepsRow(r: Run, c: Call)
    requires Consistent(r) && Apply(r, c).Some?
    ensures Consistent(Apply(r, c).value) && KeepsRecord(r, Apply(r, c).value)
    ensures !c.NoProcessCall? ==> Follows(r, Apply(r, c).value)
  {
    hide Consistent, KeepsRecord, AppendEvent, AdvanceConsumed, SealTranscript, Transition, CommitTerminal;
    hide CommitNoProcessFailure, RequestCancellation;
    match c
    case AppendCall(kind, payload, offset) => AppendKeepsRow(r, kind, payload, offset);
    case AdvanceCall(offset) => AdvanceKeepsRow(r, offset);
    case SealCall(size) => SealKeepsRow(r, size);
    case TransitionCall(to) => TransitionKeepsRow(r, to);
    case CommitCall(to) => CommitKeepsRow(r, to);
    case NoProcessCall(noPids) => NoProcessKeepsRow(r, noPids);
    case CancelCall => CancelKeepsRow(r);
  }

  /** A no-process failure takes nothing back exactly when no identity was recorded and, on a run that requires
      its transcript, nothing was consumed and no other size was sealed. */
  lemma NoProcessFailureFollowsIff(r: Run)
    requires Consistent(r) && CommitNoProcessFailure(r, true).Some?
    ensures Follows(r, CommitNoProcessFailure(r, true).value) <==>
            !r.identityValid && (r.required ==> r.consumed == 0 && r.finalSize <= 0)
  {
  }

  lemma FollowsTransitive(a: Run, b: Run, c: Run)
    requires Follows(a, b) && Follows(b, c)
    ensures Follows(a, c)
  {
  }

  predicate Launched(calls: seq<Call>) { forall c <- calls :: !c.NoProcessCall? }

  /** Over any history of store calls, in any order, accepted or refused, a required run is terminal only when
      it is sealed and every byte up to the seal is consumed, no run asked to cancel completes, and events,
      visited states and a terminal state are never taken back; nor are the consumed offset, the seal and the
      identity, but by a no-process failure. */
  lemma {:induction false} HistoriesKeepRow(r: Run, calls: seq<Call>)
    requires Consistent(r)
    ensures Consistent(ApplyAll(r, calls)) && KeepsRecord(r, ApplyAll(r, calls))
    ensures Launched(calls) ==> Follows(r, ApplyAll(r, calls))
    decreases calls
  {
    hide Apply, Consistent;
    if calls != [] {
      assert calls[0] in calls && forall c <- calls[1..] :: c in calls;
      if Apply(r, calls[0]).Some? {
        ApplyKeepsRow(r, calls[0]);
        HistoriesKeepRow(Apply(r, calls[0]).value, calls[1..]);
      } else {
        HistoriesKeepRow(r, calls[1..]);
      }
    }
  }

  // --- Which calls are accepted ---

  // The states a run may be in when it is committed as `to`.
  function EndsFrom(to: State): set<State> {
    match to
    case Completed => {Running, RecoveryUnknown}
    case Failed => {Running, CleanupRequired, RecoveryUnknown}
    case Cancelled => {Running, Cancelling, CleanupRequired, RecoveryUnknown}
    case _ => {}
  }

  // The states a live run may be moved to `to` from.
  function MovesFrom(to: State): set<State> {
    match to
    case Running => {Created, Cancelling, RecoveryUnknown}
    case Cancelling => {Running, RecoveryUnknown}
    case CleanupRequired => {Created, Running, Cancelling, RecoveryUnknown}
    case RecoveryUnknown => {Created, Running, Cancelling, CleanupRequired}
    case _ => {}
  }

  /** Which moves and endings the store accepts, by the state they lead to. */
  lemma AcceptedIff(r: Run, to: State)
    ensures Transition(r, to).Some? <==> r.state in MovesFrom(to)
    ensures CommitTerminal(r, to).Some? <==>
            && r.state in EndsFrom(to) && !(to == Completed && r.cancelRequested)
            && (r.required ==> r.finalSize >= 0 && r.consumed == r.finalSize && r.identityValid)
    ensures CommitTerminal(r, to).Some? ==> CommitTerminal(r, to).value.state == to
  {
  }

  /** The accounting calls are accepted up to the seal, a seal once or again at the same size; a no-process failure is
      accepted of a run that was only created or launched and has no pids, and leaves it failed, with no identity and
      an empty transcript where one is required. */
  lemma AccountingAcceptedIff(r: Run, kind: string, payload: seq<byte>, n: nat, noPids: bool)
    ensures AppendEvent(r, kind, payload, n).Some? <==> r.finalSize < 0 || n <= r.finalSize
    ensures AdvanceConsumed(r, n).Some? <==> r.finalSize < 0 || n <= r.finalSize
    ensures SealTranscript(r, n).Some? <==> r.finalSize < 0 || n == r.finalSize
    ensures SealTranscript(r, n).Some? ==> SealTranscript(r, n).value.finalSize == n
    ensures CommitNoProcessFailure(r, noPids).Some? <==> noPids && r.state in {Created, Running}
    ensures CommitNoProcessFailure(r, noPids).Some? ==>
              var q := CommitNoProcessFailure(r, noPids).value;
              && q.state == Failed && q.outbox && !q.identityValid
              && (r.required ==> q.consumed == q.finalSize == 0) && (!r.required ==> q.consumed == r.consumed)
  {
  }

  /** A cancellation is accepted on every run that has not ended; it stops a running one, and no history that follows
      ends in completion. */
  lemma CancelledNeverCompletes(r: Run, calls: seq<Call>)
    requires Consistent(r)
    ensures RequestCancellation(r).Some? <==> !IsTerminal(r.state)
    ensures RequestCancellation(r).Some? ==>
              var q := RequestCancellation(r).value;
              q.cancelRequested && (r.state.Running? ==> q.state.Cancelling?) && ApplyAll(q, calls).state != Completed
  {
    hide ApplyAll;
    if RequestCancellation(r).Some? {
      CancelKeepsRow(r);
      HistoriesKeepRow(RequestCancellation(r).value, calls);
    }
  }
}
