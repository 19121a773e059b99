/**
 Exactly-once storage of the transcript, over every interleaving of the tail with writers,
 other store clients, store failures, broken reads, kills and restarts.
 */
module ExactlyOnce {
  import opened Common
  import opened RunStore
  import opened TranscriptRecords
  import opened TranscriptTail
  import P = Processes

  /** The stored events are exactly the events of the bytes before the consumed offset. */
  ghost predicate StoredExactly(u: Unmarshal, w: World) {
    w.run.consumed <= |w.file| && w.run.events == Events(u, w.file[..w.run.consumed])
  }

  // On a record boundary, where the sealed end of the transcript is one.
  ghost predicate AtBoundary(w: World, o: nat) {
    Boundary(w.file, o) || (o <= |w.file| && o == w.run.finalSize)
  }

  // A corrupt record may only lie behind the consumed offset of such a run.
  ghost predicate CorruptionDeclared(r: Run) {
    CleanupRequired in r.visited || (IsTerminal(r.state) && !r.required)
  }

  // A tail that has not run past the seal has accounted for exactly the stored events.
  ghost predicate TailAgrees(u: Unmarshal, w: World) {
    w.tail.Some? ==>
      var o := w.tail.value.offset;
      && IsOpen(w)
      && (WithinSeal(w.run, o) ==>
            && AtBoundary(w, o)
            && Events(u, w.file[..o]) == w.run.events
            && (Corrupt(u, w.file[..o]) ==> CleanupRequired in w.run.visited || IsTerminal(w.run.state)))
  }

  ghost predicate Inv(u: Unmarshal, w: World) {
    && P.WellFormed(w.table)
    && Consistent(w.run)
    && StoredExactly(u, w)
    && AtBoundary(w, w.run.consumed)
    && (Corrupt(u, w.file[..w.run.consumed]) ==> CorruptionDeclared(w.run))
    && TailAgrees(u, w)
  }

  // The reader stands where the accounting does.
  predicate Steady(w: World) { w.tail.Some? ==> w.tail.value.pos == w.tail.value.offset }

  // What other actors cannot take away.
  ghost predicate Undisturbed(w: World, q: World) {
    && Follows(w.run, q.run)
    && q.run.events == w.run.events && q.run.consumed == w.run.consumed
    && q.table.tracked == w.table.tracked && q.table.supervisorPid == w.table.supervisorPid
    && (!P.SupervisorLive(w.table) ==> !P.SupervisorLive(q.table))
    && (w.table.exitNotified ==> q.table.exitNotified)
    && (P.Quiescent(w.table) ==> P.Quiescent(q.table))
    && (P.Silent(w.table) ==> P.Silent(q.table) && q.file == w.file)
  }

  // A run as it is created: nothing stored, nothing sealed, no process seen yet.
  function NewRun(required: bool, identityValid: bool): Run {
    Run(Created, [Created], false, required, identityValid, 0, -1, [], false)
  }

  /** Every start is in order: any processes, any bytes already in the file, a new run and no tail. */
  lemma NewRunIsInOrder(u: Unmarshal, t: P.Table, file: seq<byte>, required: bool, identityValid: bool)
    requires P.WellFormed(t)
    ensures var w := World(t, file, NewRun(required, identityValid), None); Inv(u, w) && Steady(w)
  {
    assert file[..0] == [];
  }

  /** A no-process failure leaves the stored events exact unless it empties a transcript that was stored. */
  lemma NoProcessFailureIsExactIff(u: Unmarshal, w: World)
    requires Inv(u, w) && CommitNoProcessFailure(w.run, true).Some?
    ensures StoredExactly(u, w.(run := CommitNoProcessFailure(w.run, true).value)) <==>
            !w.run.required || w.run.events == []
  {
    assert w.file[..0] == [];
  }

  lemma UndisturbedTransitive(a: World, b: World, c: World)
    requires Undisturbed(a, b) && Undisturbed(b, c)
    ensures Undisturbed(a, c)
  {
    hide P.Quiescent, P.Silent, P.SupervisorLive;
    FollowsTransitive(a.run, b.run, c.run);
  }

  lemma WriteKeeps(u: Unmarshal, w: World, bytes: seq<byte>)
    requires Inv(u, w)
    ensures Inv(u, w.(file := w.file + bytes))
  {
    hide P.WellFormed, Consistent, Events, Corrupt;
    var q := w.(file := w.file + bytes);
    assert q.file[..w.run.consumed] == w.file[..w.run.consumed];
    if w.tail.Some? {
      assert q.file[..w.tail.value.offset] == w.file[..w.tail.value.offset];
    }
  }

  lemma OthersKeepAccounting(r: Run, c: Call)
    requires ByOthers(c) && Apply(r, c).Some?
    ensures Apply(r, c).value.events == r.events && Apply(r, c).value.consumed == r.consumed
  {
  }

  // A row that goes on with the same accounting suits the same tail.
  lemma RowKeeps(u: Unmarshal, w: World, r: Run)
    requires Inv(u, w) && Consistent(r) && Follows(w.run, r)
    requires r.events == w.run.events && r.consumed == w.run.consumed
    ensures Inv(u, w.(run := r))
  {
    hide P.WellFormed, Consistent, Events, Corrupt;
  }

  lemma CallKeeps(u: Unmarshal, w: World, c: Call)
    requires Inv(u, w) && ByOthers(c) && Apply(w.run, c).Some?
    ensures Inv(u, w.(run := Apply(w.run, c).value)) && Follows(w.run, Apply(w.run, c).value)
    ensures Apply(w.run, c).value.events == w.run.events && Apply(w.run, c).value.consumed == w.run.consumed
  {
    hide Apply, P.WellFormed, Events, Corrupt, StoredExactly, AtBoundary, TailAgrees;
    ApplyKeepsRow(w.run, c);
    OthersKeepAccounting(w.run, c);
    RowKeeps(u, w, Apply(w.run, c).value);
  }

  lemma ProcessStepKeeps(u: Unmarshal, w: World, step: P.Step)
    requires Inv(u, w)
    ensures Inv(u, w.(table := P.Apply(w.table, step)))
    ensures Undisturbed(w, w.(table := P.Apply(w.table, step)))
  {
    hide P.Apply, P.WellFormed, Events, Corrupt, P.GroupLive, P.Silent;
    P.ApplyKeepsTable(w.table, step);
    if P.Quiescent(w.table) && P.GroupLive(P.Apply(w.table, step)) {
      P.GroupNeedsALiveMember(w.table, step);
    }
    if P.Silent(w.table) {
      P.KinNeedsLiveKin(w.table, step);
    }
  }

  lemma NobodyWrites(t: P.Table, i: P.Instance)
    requires P.Silent(t)
    ensures !MayWrite(t, i)
  {
  }

  lemma Disturb1Keeps(u: Unmarshal, w: World, s: EnvStep)
    requires Inv(u, w)
    ensures Inv(u, Disturb1(w, s)) && Undisturbed(w, Disturb1(w, s))
  {
    hide Inv, Apply, P.Apply, P.Quiescent, P.Silent, P.SupervisorLive, MayWrite;
    match s
    case ProcessStep(step) =>
      ProcessStepKeeps(u, w, step);
    case Write(i, bytes) =>
      WriteKeeps(u, w, bytes);
      if P.Silent(w.table) {
        NobodyWrites(w.table, i);
      }
    case StoreCall(c) =>
      if ByOthers(c) && Apply(w.run, c).Some? {
        CallKeeps(u, w, c);
      }
  }

  lemma UndisturbedByNothing(w: World)
    ensures Undisturbed(w, w)
  {
  }

  lemma InvKeepsRow(u: Unmarshal, w: World)
    requires Inv(u, w)
    ensures Consistent(w.run)
  {
  }

  lemma {:induction false} DisturbKeeps(u: Unmarshal, w: World, steps: seq<EnvStep>)
    requires Inv(u, w)
    ensures Inv(u, Disturb(w, steps)) && Undisturbed(w, Disturb(w, steps))
    ensures Consistent(Disturb(w, steps).run)
    decreases steps
  {
    hide Inv, Undisturbed, Disturb1;
    assert Consistent(w.run) by { InvKeepsRow(u, w); }
    if steps != [] {
      Disturb1Keeps(u, w, steps[0]);
      DisturbKeeps(u, Disturb1(w, steps[0]), steps[1..]);
      UndisturbedTransitive(w, Disturb1(w, steps[0]), Disturb(w, steps));
    } else {
      UndisturbedByNothing(w);
    }
  }

  // The bytes from the accounted offset to `end` are one complete record.
  ghost predicate OneRecord(w: World, end: nat) {
    && IsOpen(w) && w.tail.value.offset < end <= w.tail.value.pos
    && (forall k :: w.tail.value.offset <= k < end - 1 ==> w.file[k] != LINE_FEED)
    && (w.file[end - 1] == LINE_FEED || (end == w.run.finalSize && w.run.consumed <= end))
  }

  function NextLine(w: World, end: nat): seq<byte>
    requires IsOpen(w) && w.tail.value.offset <= end <= |w.file|
  {
    w.file[w.tail.value.offset..end]
  }

  lemma AccountKeeps(u: Unmarshal, w: World, r: Run, end: nat)
    requires Inv(u, w) && OneRecord(w, end) && WithinSeal(w.run, end)
    requires r == w.run.(events := w.run.events + EventOf(u, NextLine(w, end), end),
                             consumed := Max(w.run.consumed, end))
    requires Classify(u, NextLine(w, end)).Malformed? ==> CleanupRequired in w.run.visited
    ensures Inv(u, Accounted(w, r, end))
  {
    hide P.WellFormed, Events, Corrupt, EventOf, Classify;
    NextRecord(u, w.file, w.tail.value.offset, end);
    if end < w.run.consumed {
      BoundaryIsAPrefix(u, w.file, end, w.run.consumed);
    }
  }

  // Past a corrupt record of a run that is already terminal, only the tail moves.
  lemma SkipKeeps(u: Unmarshal, w: World, end: nat)
    requires Inv(u, w) && OneRecord(w, end) && IsTerminal(w.run.state)
    requires Classify(u, NextLine(w, end)).Malformed?
    ensures Inv(u, Accounted(w, w.run, end))
  {
    if WithinSeal(w.run, end) {
      NextRecord(u, w.file, w.tail.value.offset, end);
    }
  }

  lemma RewindKeeps(u: Unmarshal, w: World)
    requires Inv(u, w) && IsOpen(w)
    ensures Inv(u, Rewind(w)) && Steady(Rewind(w))
  {
  }

  lemma DisturbKeepsRecord(u: Unmarshal, w: World, end: nat, steps: seq<EnvStep>)
    requires Inv(u, w) && OneRecord(w, end)
    ensures Inv(u, Disturb(w, steps)) && OneRecord(Disturb(w, steps), end)
    ensures NextLine(Disturb(w, steps), end) == NextLine(w, end)
    ensures Undisturbed(w, Disturb(w, steps)) && Consistent(Disturb(w, steps).run)
  {
    hide Inv, Disturb;
    DisturbKeeps(u, w, steps);
  }

  lemma AdvanceKeeps(u: Unmarshal, w: World, end: nat, before: seq<EnvStep>, ok: bool)
    requires Inv(u, w) && OneRecord(w, end) && w.tail.value.pos == end
    requires !Classify(u, NextLine(w, end)).Good?
    requires Classify(u, NextLine(w, end)).Malformed? ==> CleanupRequired in w.run.visited
    ensures var (q, _) := Advance(w, end, before, ok); Inv(u, q) && Steady(q) && Follows(w.run, q.run)
  {
    DisturbKeepsRecord(u, w, end, before);
    var w1 := Disturb(w, before);
    RewindKeeps(u, w1);
    var stored := AdvanceConsumed(w1.run, end);
    if stored.Some? {
      assert w1.run.events + [] == w1.run.events;
      AccountKeeps(u, w1, stored.value, end);
    }
  }

  lemma StoreGoodKeeps(u: Unmarshal, w: World, line: seq<byte>, end: nat, atEnd: bool, t: Turn)
    requires Inv(u, w) && OneRecord(w, end) && w.tail.value.pos == end && line == NextLine(w, end)
    requires Classify(u, line).Good?
    ensures var (q, _) := StoreRecord(u, w, line, end, atEnd, t); Inv(u, q) && Steady(q) && Follows(w.run, q.run)
  {
    hide Inv, Disturb, Advance, Classify;
    DisturbKeepsRecord(u, w, end, t.beforeStore);
    var w1 := Disturb(w, t.beforeStore);
    RewindKeeps(u, w1);
    var stored := AppendEvent(w1.run, Classify(u, line).kind, Classify(u, line).payload, end);
    if stored.Some? {
      AccountKeeps(u, w1, stored.value, end);
    }
  }

  lemma StoreRecordKeeps(u: Unmarshal, w: World, line: seq<byte>, end: nat, atEnd: bool, t: Turn)
    requires Inv(u, w) && OneRecord(w, end) && w.tail.value.pos == end && line == NextLine(w, end)
    ensures var (q, _) := StoreRecord(u, w, line, end, atEnd, t); Inv(u, q) && Steady(q) && Follows(w.run, q.run)
  {
    hide Inv, Disturb, Advance, Classify;
    match Classify(u, line)
    case Blank =>
      AdvanceKeeps(u, w, end, t.beforeStore, t.storeOk);
    case Good(kind, payload) =>
      StoreGoodKeeps(u, w, line, end, atEnd, t);
    case Malformed =>
      DisturbKeepsRecord(u, w, end, t.beforeStore);
      var w1 := Disturb(w, t.beforeStore);
      RewindKeeps(u, w1);
      if t.storeOk && IsTerminal(w1.run.state) {
        SkipKeeps(u, w1, end);
      } else if t.storeOk && w1.run.state.CleanupRequired? {
        AdvanceKeeps(u, w1, end, t.beforeAdvance, t.advanceOk);
      } else if t.storeOk && CanTransition(w1.run.state, CleanupRequired) {
        MoveAndAdvanceKeeps(u, w1, end, t);
      }
  }

  lemma MoveAndAdvanceKeeps(u: Unmarshal, w1: World, end: nat, t: Turn)
    requires Inv(u, w1) && OneRecord(w1, end) && w1.tail.value.pos == end
    requires Classify(u, NextLine(w1, end)).Malformed?
    ensures var w2 := Disturb(w1, t.beforeTransition);
            var moved := Transition(w2.run, CleanupRequired);
            && Inv(u, Rewind(w2)) && Steady(Rewind(w2)) && Follows(w1.run, w2.run)
            && (moved.Some? ==>
                  var (q, _) := Advance(w2.(run := moved.value), end, t.beforeAdvance, t.advanceOk);
                  Inv(u, q) && Steady(q) && Follows(w1.run, q.run))
  {
    hide Inv, Disturb, Advance, Classify;
    DisturbKeepsRecord(u, w1, end, t.beforeTransition);
    var w2 := Disturb(w1, t.beforeTransition);
    RewindKeeps(u, w2);
    var moved := Transition(w2.run, CleanupRequired);
    if moved.Some? {
      CallKeeps(u, w2, TransitionCall(CleanupRequired));
      var w3 := w2.(run := moved.value);
      AdvanceKeeps(u, w3, end, t.beforeAdvance, t.advanceOk);
    }
  }

  lemma ReadLineKeeps(u: Unmarshal, w: World, t: Turn)
    requires Inv(u, w) && IsOpen(w) && Steady(w)
    ensures Inv(u, ReadLine(w, t)) && Follows(w.run, ReadLine(w, t).run)
  {
    hide P.WellFormed, Events, Corrupt, Disturb, Consistent;
    DisturbKeeps(u, w, t.beforeRead);
  }

  lemma ReadLineTakesOneRecord(u: Unmarshal, w: World, t: Turn)
    requires Inv(u, w) && IsOpen(w) && Steady(w)
    ensures var q := ReadLine(w, t); var end := q.tail.value.pos; var o := q.tail.value.offset;
            && (forall k :: o <= k < end - 1 ==> q.file[k] != LINE_FEED)
            && (o < end && q.file[end - 1] != LINE_FEED && !t.read.Broken? ==> end == |q.file|)
            && q.run.consumed <= |q.file|
  {
    hide Disturb, Events, Corrupt, P.WellFormed, Consistent, RecordLength, Undisturbed;
    DisturbKeeps(u, w, t.beforeRead);
  }

  // The reader has the file's last bytes, without a newline.
  lemma SealedEndKeeps(u: Unmarshal, w1: World, t: Turn)
    requires Inv(u, w1) && IsOpen(w1) && w1.tail.value.offset < w1.tail.value.pos == |w1.file|
    requires w1.run.consumed <= |w1.file|
    requires forall k :: w1.tail.value.offset <= k < |w1.file| ==> w1.file[k] != LINE_FEED
    ensures var end := w1.tail.value.pos;
            var w2 := Disturb(w1, t.beforeProgress);
            && Inv(u, Rewind(w2)) && Steady(Rewind(w2)) && Follows(w1.run, w2.run)
            && (end == w2.run.finalSize ==>
                  var (q, _) := StoreRecord(u, w2, NextLine(w1, end), end, true, t);
                  Inv(u, q) && Steady(q) && Follows(w1.run, q.run))
  {
    hide Inv, Disturb, StoreRecord, Consistent, Classify;
    var end := w1.tail.value.pos;
    DisturbKeeps(u, w1, t.beforeProgress);
    var w2 := Disturb(w1, t.beforeProgress);
    RewindKeeps(u, w2);
    if end == w2.run.finalSize {
      assert NextLine(w1, end) == NextLine(w2, end);
      StoreRecordKeeps(u, w2, NextLine(w2, end), end, true, t);
      FollowsTransitive(w1.run, w2.run, StoreRecord(u, w2, NextLine(w2, end), end, true, t).0.run);
    }
  }

  lemma ReadTurnKeeps(u: Unmarshal, w: World, t: Turn)
    requires Inv(u, w) && IsOpen(w) && Steady(w)
    ensures var (q, _) := ReadTurn(u, w, t); Inv(u, q) && Steady(q) && Follows(w.run, q.run)
  {
    hide Inv, Disturb, StoreRecord, Consistent, ReadLine;
    ReadLineKeeps(u, w, t);
    ReadLineTakesOneRecord(u, w, t);
    var w1 := ReadLine(w, t);
    RewindKeeps(u, w1);
    var end := w1.tail.value.pos;
    if end > w1.tail.value.offset && w1.file[end - 1] == LINE_FEED {
      StoreRecordKeeps(u, w1, NextLine(w1, end), end, false, t);
      FollowsTransitive(w.run, w1.run, StoreRecord(u, w1, NextLine(w1, end), end, false, t).0.run);
    } else if end > w1.tail.value.offset && !t.read.Broken? {
      SealedEndKeeps(u, w1, t);
    }
  }

  /** A whole pass, whatever it meets, keeps the invariant. */
  lemma {:induction false} ReadLoopKeeps(u: Unmarshal, w: World, turns: seq<Turn>)
    requires Inv(u, w) && IsOpen(w) && Steady(w)
    ensures Inv(u, ReadLoop(u, w, turns)) && Steady(ReadLoop(u, w, turns))
    ensures Follows(w.run, ReadLoop(u, w, turns).run)
    decreases turns
  {
    if turns != [] {
      ReadTurnKeeps(u, w, turns[0]);
      var (next, more) := ReadTurn(u, w, turns[0]);
      if more {
        ReadLoopKeeps(u, next, turns[1..]);
      }
    }
  }
}
