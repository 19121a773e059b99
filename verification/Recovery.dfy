/**
 Terminal publication in recovery and cleanup: supervisor death, worker absence and an empty
 group are seen at different instants, then the transcript is handed off, then the row is
 committed. Anything may happen in between.
 */
module Recovery {
  import opened Common
  import opened RunStore
  import opened TranscriptRecords
  import opened TranscriptTail
  import opened TranscriptHandoff
  import opened ExactlyOnce
  import opened HandoffProofs
  import HandoffCompletes
  import P = Processes

  // In recovery a listing that names only the exited, tracked supervisor is accepted as empty.
  datatype Route = FromRecovery | FromCleanup

  datatype Attempt = Attempt(
    route: Route, workerPid: P.Pid,
    beforeSupervisor: seq<EnvStep>,
    beforeWorker: seq<EnvStep>,
    beforeGroup: seq<EnvStep>, groupOk: bool,
    beforeRecheck: seq<EnvStep>,
    handoff: Handoff,
    beforeCommit: seq<EnvStep>, commitOk: bool)

  // The world once quiescence has been established by observation, or `None`.
  function ObserveQuiescence(w: World, a: Attempt): (r: (World, bool))
    ensures w.file <= r.0.file && r.0.tail == w.tail
  {
    var w1 := Disturb(w, a.beforeSupervisor);
    if !P.SeenDead(w1.table) then (w1, false)
    else
      var w2 := Disturb(w1, a.beforeWorker);
      if P.ProcessAlive(w2.table, a.workerPid) then (w2, false)
      else
        var w3 := Disturb(w2, a.beforeGroup);
        var members := P.GroupMembers(w3.table);
        if !a.groupOk then (w3, false)
        else if members == {} then (w3, true)
        else if a.route.FromCleanup? then (w3, false)
        else
          var w4 := Disturb(w3, a.beforeRecheck);
          (w4, w4.table.tracked && w4.table.exitNotified && forall m <- members :: m == w4.table.supervisorPid)
  }

  function Publish(u: Unmarshal, w: World, a: Attempt): (r: (World, bool))
    requires TailInFile(w)
    ensures TailInFile(r.0)
  {
    var (w1, quiescent) := ObserveQuiescence(w, a);
    if !quiescent then (w1, false)
    else
      var (w2, verdict) := ProgressHandoff(u, w1, a.handoff);
      if !verdict.Complete? then (w2, false)
      else
        var w3 := Disturb(w2, a.beforeCommit);
        var commit := CommitTerminal(w3.run, Failed);
        if a.commitOk && commit.Some? then (w3.(run := commit.value, tail := None), true) else (w3, false)
  }

  // --- Quiescence, once there, is never lost; the file stands still once nothing of the run is left ---

  ghost predicate StaysQuiescent(t: P.Table, t': P.Table) {
    && (P.WellFormed(t) && P.Quiescent(t) ==> P.WellFormed(t') && P.Quiescent(t'))
    && (P.WellFormed(t) && P.Silent(t) ==> P.WellFormed(t') && P.Silent(t'))
  }

  ghost predicate Still(w: World, q: World) {
    && StaysQuiescent(w.table, q.table)
    && w.file <= q.file
    && (P.WellFormed(w.table) && P.Silent(w.table) ==> q.file == w.file)
  }

  lemma StepStaysQuiescent(t: P.Table, step: P.Step)
    ensures StaysQuiescent(t, P.Apply(t, step))
  {
    hide P.WellFormed, P.Apply, P.GroupLive, P.Silent;
    if P.WellFormed(t) {
      P.ApplyKeepsTable(t, step);
      if P.Quiescent(t) && P.GroupLive(P.Apply(t, step)) {
        P.GroupNeedsALiveMember(t, step);
      }
      if P.Silent(t) {
        P.KinNeedsLiveKin(t, step);
      }
    }
  }

  lemma Disturb1IsStill(w: World, s: EnvStep)
    ensures Still(w, Disturb1(w, s))
  {
    hide P.WellFormed, P.Apply, P.Quiescent, P.Silent, MayWrite;
    if s.ProcessStep? {
      StepStaysQuiescent(w.table, s.step);
    } else if s.Write? && P.Silent(w.table) {
      NobodyWrites(w.table, s.writer);
    }
  }

  lemma {:induction false} DisturbIsStill(w: World, steps: seq<EnvStep>)
    ensures Still(w, Disturb(w, steps))
    decreases steps
  {
    hide P.WellFormed, P.Quiescent, P.Silent, Disturb1;
    if steps != [] {
      Disturb1IsStill(w, steps[0]);
      DisturbIsStill(Disturb1(w, steps[0]), steps[1..]);
    }
  }

  lemma AdvanceIsStill(w: World, end: nat, before: seq<EnvStep>, ok: bool)
    requires IsOpen(w) && end <= w.tail.value.pos
    ensures Still(w, Advance(w, end, before, ok).0)
  {
    hide P.WellFormed, P.Quiescent, P.Silent, Disturb;
    DisturbIsStill(w, before);
  }

  lemma StoreRecordIsStill(u: Unmarshal, w: World, line: seq<byte>, end: nat, atEnd: bool, t: Turn)
    requires IsOpen(w) && end <= w.tail.value.pos
    ensures Still(w, StoreRecord(u, w, line, end, atEnd, t).0)
  {
    hide P.WellFormed, P.Quiescent, P.Silent, Disturb, Advance, Classify;
    DisturbIsStill(w, t.beforeStore);
    var w1 := Disturb(w, t.beforeStore);
    AdvanceIsStill(w, end, t.beforeStore, t.storeOk);
    AdvanceIsStill(w1, end, t.beforeAdvance, t.advanceOk);
    DisturbIsStill(w1, t.beforeTransition);
    var w2 := Disturb(w1, t.beforeTransition);
    var moved := Transition(w2.run, CleanupRequired);
    if moved.Some? {
      AdvanceIsStill(w2.(run := moved.value), end, t.beforeAdvance, t.advanceOk);
    }
  }

  lemma ReadTurnIsStill(u: Unmarshal, w: World, t: Turn)
    requires IsOpen(w)
    ensures Still(w, ReadTurn(u, w, t).0)
  {
    hide P.WellFormed, P.Quiescent, P.Silent, Disturb, StoreRecord;
    DisturbIsStill(w, t.beforeRead);
    var w1 := ReadLine(w, t);
    var line := w1.file[w.tail.value.pos..w1.tail.value.pos];
    var end := w1.tail.value.offset + |line|;
    StoreRecordIsStill(u, w1, line, end, false, t);
    DisturbIsStill(w1, t.beforeProgress);
    StoreRecordIsStill(u, Disturb(w1, t.beforeProgress), line, end, true, t);
  }

  lemma {:induction false} ReadLoopIsStill(u: Unmarshal, w: World, turns: seq<Turn>)
    requires IsOpen(w)
    ensures Still(w, ReadLoop(u, w, turns))
    decreases turns
  {
    hide P.WellFormed, P.Quiescent, P.Silent, ReadTurn;
    if turns != [] {
      ReadTurnIsStill(u, w, turns[0]);
      ReadLoopIsStill(u, ReadTurn(u, w, turns[0]).0, turns[1..]);
    }
  }

  lemma TailTranscriptIsStill(u: Unmarshal, w: World, p: Pass)
    requires TailInFile(w)
    ensures Still(w, TailTranscript(u, w, p))
  {
    hide P.WellFormed, P.Quiescent, P.Silent, Disturb, ReadLoop;
    var w1 := if w.tail.None? then StartTailing(w, 0, p.opening) else w;
    DisturbIsStill(w1, p.before);
    if w1.tail.Some? {
      ReadLoopIsStill(u, Disturb(w1, p.before), p.turns);
    }
  }

  lemma DrainSealedIsStill(u: Unmarshal, w: World, size: nat, h: Handoff)
    requires TailInFile(w)
    ensures Still(w, DrainSealed(u, w, size, h).0)
  {
    hide P.WellFormed, P.Quiescent, P.Silent, Disturb, TailTranscript;
    DisturbIsStill(w, h.beforeReload);
    var w1 := Disturb(w, h.beforeReload);
    DisturbIsStill(w1, h.beforeBind);
    var w2 := Disturb(w1, h.beforeBind);
    if w1.run.consumed <= |w2.file| {
      var w3 := BindTail(w2, w1.run.consumed);
      TailTranscriptIsStill(u, w3, h.pass);
      DisturbIsStill(w3, h.beforeLast);
      DisturbIsStill(TailTranscript(u, w3, h.pass), h.beforeLast);
    }
  }

  lemma HandoffIsStill(u: Unmarshal, w: World, h: Handoff)
    requires TailInFile(w)
    ensures Still(w, ProgressHandoff(u, w, h).0)
  {
    hide P.WellFormed, P.Quiescent, P.Silent, Disturb, DrainSealed;
    DisturbIsStill(w, h.beforeSeal);
    var w1 := Disturb(w, h.beforeSeal);
    var seal := SealTranscript(w1.run, |w.file|);
    if seal.Some? {
      DrainSealedIsStill(u, w1.(run := seal.value), |w.file|, h);
    }
  }

  // --- Observation establishes it ---

  lemma ObservedListing(w3: World, a: Attempt)
    requires P.WellFormed(w3.table) && !P.SupervisorLive(w3.table)
    requires P.GroupMembers(w3.table) == {} ||
             (w3.table.tracked && forall m <- P.GroupMembers(w3.table) :: m == w3.table.supervisorPid)
    ensures P.Quiescent(w3.table)
  {
    hide P.WellFormed, P.GroupMembers;
    if P.GroupLive(w3.table) {
      P.LiveGroupIsListed(w3.table);
      P.PinnedSupervisorIsNotAMember(w3.table);
    }
  }

  /** Three observations at three instants add up: because a dead supervisor stays dead and only
      live members fork into the group, the group is quiescent when the last one is made. */
  lemma ObservedQuiescenceIsReal(u: Unmarshal, w: World, a: Attempt)
    requires Inv(u, w)
    ensures Inv(u, ObserveQuiescence(w, a).0)
    ensures ObserveQuiescence(w, a).1 ==> P.Quiescent(ObserveQuiescence(w, a).0.table)
    ensures Undisturbed(w, ObserveQuiescence(w, a).0)
  {
    hide Inv, Disturb, Undisturbed, Consistent, P.GroupMembers, P.GroupLive, P.ProcessAlive, P.WellFormed;
    DisturbKeeps(u, w, a.beforeSupervisor);
    var w1 := Disturb(w, a.beforeSupervisor);
    if P.SeenDead(w1.table) {
      DeadStaysDead(u, w1, a.beforeWorker);
      var w2 := Disturb(w1, a.beforeWorker);
      UndisturbedTransitive(w, w1, w2);
      DeadStaysDead(u, w2, a.beforeGroup);
      var w3 := Disturb(w2, a.beforeGroup);
      UndisturbedTransitive(w, w2, w3);
      DeadStaysDead(u, w3, a.beforeRecheck);
      var w4 := Disturb(w3, a.beforeRecheck);
      UndisturbedTransitive(w, w3, w4);
      if ObserveQuiescence(w, a).1 {
        ObservedListing(w3, a);
        DisturbIsStill(w3, a.beforeRecheck);
      }
    }
  }

  lemma DeadStaysDead(u: Unmarshal, w: World, steps: seq<EnvStep>)
    requires Inv(u, w) && (P.SeenDead(w.table) || !P.SupervisorLive(w.table))
    ensures var q := Disturb(w, steps);
            && Inv(u, q) && P.WellFormed(q.table) && !P.SupervisorLive(q.table) && Undisturbed(w, q)
            && q.table.tracked == w.table.tracked && q.table.supervisorPid == w.table.supervisorPid
  {
    hide Disturb, Events, Corrupt, Consistent, P.Quiescent;
    DisturbKeeps(u, w, steps);
    if P.SeenDead(w.table) {
      P.SeenDeadIsDead(w.table);
    }
  }

  // What holds from the terminal commit on. A process that left the group may still write behind the seal.
  ghost predicate Finished(u: Unmarshal, w: World) {
    && P.WellFormed(w.table) && P.Quiescent(w.table)
    && w.run.state == Failed && w.run.outbox
    && (w.run.required ==>
          w.run.finalSize == w.run.consumed <= |w.file| && w.run.events == Events(u, w.file[..w.run.finalSize]))
  }

  // The row already says that the transcript is complete; a commit only adds its own verdict.
  lemma FailedIsFinished(u: Unmarshal, w: World)
    requires Inv(u, w) && P.Quiescent(w.table) && w.run.state == Failed
    ensures Finished(u, w)
  {
    hide Events, Corrupt, P.WellFormed, P.Quiescent, TailAgrees;
  }

  lemma CommitFinishes(u: Unmarshal, w: World, before: seq<EnvStep>)
    requires Inv(u, w) && P.Quiescent(w.table)
    ensures var w1 := Disturb(w, before); var commit := CommitTerminal(w1.run, Failed);
            commit.Some? ==>
              var q := w1.(run := commit.value, tail := None); Inv(u, q) && Finished(u, q) && Follows(w.run, q.run)
  {
    hide Disturb, Events, Corrupt, P.WellFormed, P.Quiescent, P.Silent, Consistent, TailAgrees, Inv, Finished;
    DisturbKeeps(u, w, before);
    var w1 := Disturb(w, before);
    if CommitTerminal(w1.run, Failed).Some? {
      CallKeeps(u, w1, CommitCall(Failed));
      DieKeeps(u, w1.(run := CommitTerminal(w1.run, Failed).value));
      FailedIsFinished(u, w1.(run := CommitTerminal(w1.run, Failed).value, tail := None));
    }
  }

  lemma HandoffKeepsQuiescent(u: Unmarshal, w: World, h: Handoff)
    requires Inv(u, w) && Steady(w) && TailInFile(w) && P.Quiescent(w.table)
    ensures var q := ProgressHandoff(u, w, h).0; Inv(u, q) && P.Quiescent(q.table) && Follows(w.run, q.run)
  {
    hide ProgressHandoff, Events, Corrupt, P.WellFormed, P.Quiescent, P.Silent, Consistent, TailAgrees;
    HandoffKeeps(u, w, h);
    HandoffIsStill(u, w, h);
  }

  /** When recovery or cleanup commits a run as terminal, the group is quiescent, the outbox row is there, and a
      required transcript is sealed, consumed to the seal, and stored exactly: it is the file as it was when
      the handoff looked last. */
  lemma PublishFinishes(u: Unmarshal, w: World, a: Attempt)
    requires Inv(u, w) && Steady(w) && TailInFile(w)
    ensures Publish(u, w, a).1 ==>
              && Inv(u, Publish(u, w, a).0) && Finished(u, Publish(u, w, a).0)
              && Follows(w.run, Publish(u, w, a).0.run)
              && (w.run.required ==> Publish(u, w, a).0.run.finalSize == SizeHandedOff(u, w, a))
  {
    hide Inv, Disturb, ObserveQuiescence, ProgressHandoff, Finished, P.WellFormed, P.Quiescent, P.Silent;
    ObservedQuiescenceIsReal(u, w, a);
    var (w1, quiescent) := ObserveQuiescence(w, a);
    if quiescent {
      HandoffKeepsQuiescent(u, w1, a.handoff);
      var (w2, verdict) := ProgressHandoff(u, w1, a.handoff);
      if verdict.Complete? {
        CommitFinishes(u, w2, a.beforeCommit);
        if w.run.required {
          HandoffCompletes.CompleteMeansDrained(u, w1, a.handoff);
        }
      }
    }
  }

  // The size of the file at the last look of the handoff.
  function SizeHandedOff(u: Unmarshal, w: World, a: Attempt): nat
    requires TailInFile(w)
  {
    |ProgressHandoff(u, ObserveQuiescence(w, a).0, a.handoff).0.file|
  }

  // --- Terminal means over ---

  lemma StartTailingIsStill(w: World, offset: nat, o: Opening)
    requires TailInFile(w)
    ensures Still(w, StartTailing(w, offset, o))
  {
    hide P.WellFormed, P.Quiescent, P.Silent;
  }

  lemma LettingGoIsStill(t: P.Table)
    ensures StaysQuiescent(t, P.Orphan(t)) && StaysQuiescent(t, P.ReapSupervisor(t))
  {
    hide P.WellFormed, P.Quiescent, P.Silent, P.Orphan, P.ReapSupervisor;
    if P.WellFormed(t) {
      P.LettingGoKeepsTable(t);
    }
  }

  lemma DoIsStill(u: Unmarshal, w: World, op: Op)
    requires TailInFile(w)
    ensures Still(w, Do(u, w, op))
  {
    hide P.WellFormed, P.Quiescent, P.Silent, P.Orphan, P.ReapSupervisor;
    hide StartTailing, TailTranscript, ProgressHandoff, Disturb1;
    match op
    case Others(step) => Disturb1IsStill(w, step);
    case Die => LettingGoIsStill(w.table);
    case ReapSupervisor => LettingGoIsStill(w.table);
    case FailUnlaunched(_) =>
    case OpenAtDurable(opening) => StartTailingIsStill(w, w.run.consumed, opening);
    case DoPass(pass) => TailTranscriptIsStill(u, w, pass);
    case DoHandoff(handoff) => HandoffIsStill(u, w, handoff);
  }

  // What a daemon that comes later needs to know of the world.
  ghost predicate Settled(u: Unmarshal, w: World) { Inv(u, w) && Steady(w) && TailInFile(w) && Finished(u, w) }

  // The row goes on, the processes of the run do not come back, and a required transcript is as it was.
  ghost predicate GoesOn(w: World, q: World) {
    && Follows(w.run, q.run)
    && Still(w, q)
    && (w.run.required ==> q.run.events == w.run.events && q.run.finalSize == w.run.finalSize)
  }

  lemma GoesOnTransitive(a: World, b: World, c: World)
    requires GoesOn(a, b) && GoesOn(b, c)
    ensures GoesOn(a, c)
  {
    hide P.WellFormed, P.Quiescent, P.Silent;
  }

  // Nothing is taken back, so what was finished stays finished.
  lemma StillFinished(u: Unmarshal, w: World, q: World)
    requires Inv(u, w) && Finished(u, w) && Inv(u, q) && Follows(w.run, q.run) && Still(w, q)
    ensures Finished(u, q) && GoesOn(w, q)
  {
    hide P.WellFormed, P.Quiescent, P.Silent, Corrupt, Events, TailAgrees;
    FailedIsFinished(u, q);
    if w.run.required {
      assert q.file[..w.run.finalSize] == w.file[..w.run.finalSize];
    }
  }

  // A pass that finds no tail opens none on a terminal run, and a launched run does not fail unlaunched.
  lemma NothingForTerminal(u: Unmarshal, w: World, op: Op)
    requires TailInFile(w) && IsTerminal(w.run.state) && (op.FailUnlaunched? || (op.DoPass? && w.tail.None?))
    ensures Do(u, w, op) == w
  {
  }

  lemma DoKeepsSettled(u: Unmarshal, w: World, op: Op)
    requires Settled(u, w)
    ensures Settled(u, Do(u, w, op)) && GoesOn(w, Do(u, w, op))
  {
    hide Inv, Still, P.WellFormed, P.Quiescent, StartTailing, TailTranscript, ProgressHandoff, Do, GoesOn;
    DoIsStill(u, w, op);
    if op.FailUnlaunched? || (op.DoPass? && w.tail.None?) {
      NothingForTerminal(u, w, op);
    } else {
      DoKeeps(u, w, op);
    }
    StillFinished(u, w, Do(u, w, op));
  }

  lemma {:induction false} DisturbKeepsSettled(u: Unmarshal, w: World, steps: seq<EnvStep>)
    requires Settled(u, w)
    ensures Settled(u, Disturb(w, steps)) && GoesOn(w, Disturb(w, steps))
    decreases steps
  {
    hide Settled, Disturb1, GoesOn;
    if steps != [] {
      DoKeepsSettled(u, w, Others(steps[0]));
      DisturbKeepsSettled(u, Disturb1(w, steps[0]), steps[1..]);
      GoesOnTransitive(w, Disturb1(w, steps[0]), Disturb(w, steps));
    } else {
      GoesOnByItself(w);
    }
  }

  lemma GoesOnByItself(w: World)
    ensures GoesOn(w, w)
  {
  }

  lemma ObserveKeepsSettled(u: Unmarshal, w: World, a: Attempt)
    requires Settled(u, w)
    ensures Settled(u, ObserveQuiescence(w, a).0) && GoesOn(w, ObserveQuiescence(w, a).0)
  {
    hide Settled, Disturb, GoesOn, P.SeenDead, P.ProcessAlive, P.GroupMembers;
    DisturbKeepsSettled(u, w, a.beforeSupervisor);
    var w1 := Disturb(w, a.beforeSupervisor);
    DisturbKeepsSettled(u, w1, a.beforeWorker);
    var w2 := Disturb(w1, a.beforeWorker);
    GoesOnTransitive(w, w1, w2);
    DisturbKeepsSettled(u, w2, a.beforeGroup);
    var w3 := Disturb(w2, a.beforeGroup);
    GoesOnTransitive(w, w2, w3);
    DisturbKeepsSettled(u, w3, a.beforeRecheck);
    GoesOnTransitive(w, w3, Disturb(w3, a.beforeRecheck));
  }

  // A later attempt to end the run is refused by the store.
  lemma AttemptKeepsSettled(u: Unmarshal, w: World, a: Attempt)
    requires Settled(u, w) && TailInFile(w)
    ensures Settled(u, Publish(u, w, a).0) && GoesOn(w, Publish(u, w, a).0) && !Publish(u, w, a).1
  {
    hide Inv, Events, P.WellFormed, P.Quiescent, P.Silent, Disturb, ObserveQuiescence, ProgressHandoff, GoesOn;
    ObserveKeepsSettled(u, w, a);
    var w1 := ObserveQuiescence(w, a).0;
    DoKeepsSettled(u, w1, DoHandoff(a.handoff));
    var w2 := ProgressHandoff(u, w1, a.handoff).0;
    GoesOnTransitive(w, w1, w2);
    DisturbKeepsSettled(u, w2, a.beforeCommit);
    GoesOnTransitive(w, w2, Disturb(w2, a.beforeCommit));
  }

  // Anything a later daemon may do: tail, die, reopen, hand off, or try to end the run again.
  datatype Later = Daemon(op: Op) | Again(attempt: Attempt)

  function DoLater(u: Unmarshal, w: World, x: Later): (w': World)
    requires TailInFile(w)
    ensures TailInFile(w')
  {
    match x
    case Daemon(op) => Do(u, w, op)
    case Again(attempt) => Publish(u, w, attempt).0
  }

  function DoAllLater(u: Unmarshal, w: World, later: seq<Later>): (w': World)
    requires TailInFile(w)
    ensures TailInFile(w')
    decreases later
  {
    if later == [] then w else DoAllLater(u, DoLater(u, w, later[0]), later[1..])
  }

  lemma {:induction false} LaterKeepsSettled(u: Unmarshal, w: World, later: seq<Later>)
    requires TailInFile(w) && Settled(u, w)
    ensures Settled(u, DoAllLater(u, w, later)) && GoesOn(w, DoAllLater(u, w, later))
    decreases later
  {
    hide Settled, Do, Publish, GoesOn;
    if later != [] {
      match later[0] {
        case Daemon(op) => DoKeepsSettled(u, w, op);
        case Again(attempt) => AttemptKeepsSettled(u, w, attempt);
      }
      LaterKeepsSettled(u, DoLater(u, w, later[0]), later[1..]);
      GoesOnTransitive(w, DoLater(u, w, later[0]), DoAllLater(u, w, later));
    } else {
      GoesOnByItself(w);
    }
  }

  lemma PublishSettles(u: Unmarshal, w: World, a: Attempt)
    requires Inv(u, w) && Steady(w) && TailInFile(w) && Publish(u, w, a).1
    ensures Settled(u, Publish(u, w, a).0)
  {
    hide Inv, Publish, Finished;
    PublishFinishes(u, w, a);
    PublishClosesTail(u, w, a);
  }

  /** Terminal means over: after the commit, whatever processes, writers, store clients and daemons do, with any
      passes, deaths, reopenings, handoffs and further attempts, no process of the run's group and no supervisor
      is alive, the run is still failed, nothing before the end of the file is rewritten, and a required
      transcript keeps its seal and the events of the bytes before it. */
  lemma TerminalIsFinal(u: Unmarshal, w: World, a: Attempt, later: seq<Later>)
    requires Inv(u, w) && Steady(w) && TailInFile(w) && Publish(u, w, a).1
    ensures var q := Publish(u, w, a).0; var l := DoAllLater(u, q, later);
            && Finished(u, l)
            && q.file <= l.file
            && (q.run.required ==> l.run.finalSize == q.run.finalSize && l.run.events == q.run.events)
  {
    hide Inv, Publish, DoAllLater, Finished, StaysQuiescent;
    PublishSettles(u, w, a);
    LaterKeepsSettled(u, Publish(u, w, a).0, later);
  }

  lemma PublishClosesTail(u: Unmarshal, w: World, a: Attempt)
    requires TailInFile(w) && Publish(u, w, a).1
    ensures Publish(u, w, a).0.tail.None?
  {
    hide ObserveQuiescence, ProgressHandoff, Disturb;
  }

  // --- Who may still write ---

  lemma SilentIff(t: P.Table)
    requires P.WellFormed(t) && P.Quiescent(t)
    ensures P.Silent(t) <==> !exists i :: P.Stray(t, i)
  {
    assert forall i :: P.Live(t, i) ==> !t.procs[i].member;
    if P.Silent(t) {
      assert forall i :: !P.Stray(t, i);
    } else {
      var i :| P.Live(t, i) && t.procs[i].kin;
      assert P.Stray(t, i);
    }
  }

  lemma StrayWrites(u: Unmarshal, w: World, i: P.Instance)
    requires TailInFile(w) && P.Stray(w.table, i)
    ensures DoAllLater(u, w, [Daemon(Others(Write(i, [0x41])))]).file == w.file + [0x41]
  {
    var later := [Daemon(Others(Write(i, [0x41])))];
    assert later[1..] == [];
    var q := DoLater(u, w, later[0]);
    assert q.file == w.file + [0x41];
    assert DoAllLater(u, q, []) == q;
  }

  /** The file has its final bytes at the commit if and only if no live process that was in the run's group, or
      descends from one that was, is outside it. */
  lemma FileIsFinalIff(u: Unmarshal, w: World, a: Attempt)
    requires Inv(u, w) && Steady(w) && TailInFile(w) && Publish(u, w, a).1
    ensures var q := Publish(u, w, a).0;
            (forall later :: DoAllLater(u, q, later).file == q.file) <==> !exists i :: P.Stray(q.table, i)
  {
    hide Inv, Publish, DoAllLater, Events, P.WellFormed, P.Quiescent, P.Silent, P.Stray;
    PublishSettles(u, w, a);
    var q := Publish(u, w, a).0;
    SilentIff(q.table);
    if P.Silent(q.table) {
      forall later
        ensures DoAllLater(u, q, later).file == q.file
      {
        LaterKeepsSettled(u, q, later);
      }
    } else {
      var i :| P.Stray(q.table, i);
      StrayWrites(u, q, i);
    }
  }

  // --- When an attempt commits ---

  function QuietAttempt(route: Route, workerPid: P.Pid, n: nat): Attempt {
    Attempt(route, workerPid, [], [], [], true, [], HandoffCompletes.QuietHandoff(n), [], true)
  }

  // What the engine must see: a dead supervisor, no worker, and an empty listing, or in recovery one that names
  // only the exited supervisor it has not reaped.
  predicate SeenGone(t: P.Table, route: Route, workerPid: P.Pid) {
    && (if t.tracked then t.exitNotified else forall i <- t.procs :: t.procs[i].pid != t.supervisorPid)
    && (forall i <- t.procs :: t.procs[i].pid != workerPid)
    && (forall i <- t.procs :: !t.procs[i].zombie && t.procs[i].pgid == t.pgid ==>
          route.FromRecovery? && t.tracked && t.procs[i].pid == t.supervisorPid)
  }

  lemma SeenGoneIff(t: P.Table, route: Route, workerPid: P.Pid)
    ensures SeenGone(t, route, workerPid) <==>
            && P.SeenDead(t) && !P.ProcessAlive(t, workerPid)
            && (P.GroupMembers(t) == {} ||
                (route.FromRecovery? && t.tracked && t.exitNotified
                 && forall m <- P.GroupMembers(t) :: m == t.supervisorPid))
  {
    ListingIs(t, route);
  }

  lemma ListingIs(t: P.Table, route: Route)
    ensures (P.GroupMembers(t) == {} || (route.FromRecovery? && t.tracked
                                         && forall m <- P.GroupMembers(t) :: m == t.supervisorPid))
       <==> forall i <- t.procs :: !t.procs[i].zombie && t.procs[i].pgid == t.pgid ==>
              route.FromRecovery? && t.tracked && t.procs[i].pid == t.supervisorPid
  {
    forall i <- t.procs | !t.procs[i].zombie && t.procs[i].pgid == t.pgid
      ensures t.procs[i].pid in P.GroupMembers(t)
    {
      assert P.Live(t, i);
    }
    forall m <- P.GroupMembers(t)
      ensures exists i <- t.procs :: !t.procs[i].zombie && t.procs[i].pgid == t.pgid && t.procs[i].pid == m
    {
    }
  }

  lemma QuietObservation(w: World, a: Attempt)
    requires a.beforeSupervisor == a.beforeWorker == a.beforeGroup == a.beforeRecheck == [] && a.groupOk
    ensures ObserveQuiescence(w, a) == (w, SeenGone(w.table, a.route, a.workerPid))
  {
    hide P.SeenDead, P.ProcessAlive, P.GroupMembers, SeenGone;
    HandoffCompletes.QuietDisturb();
    SeenGoneIff(w.table, a.route, a.workerPid);
  }

  /** With nothing in the way, recovery or cleanup commits a run in one of its two states exactly when the engine
      sees every process gone, and the transcript is not required or is of the recorded file, unsealed or sealed
      at its size. */
  lemma QuietAttemptCommitsIff(u: Unmarshal, w: World, route: Route, workerPid: P.Pid, n: nat)
    requires Inv(u, w) && Steady(w) && TailInFile(w) && n > |w.file|
    requires w.run.state.RecoveryUnknown? || w.run.state.CleanupRequired?
    ensures Publish(u, w, QuietAttempt(route, workerPid, n)).1
       <==> && SeenGone(w.table, route, workerPid)
            && (!w.run.required || (w.run.identityValid && (w.run.finalSize < 0 || w.run.finalSize == |w.file|)))
    ensures var (q, committed) := Publish(u, w, QuietAttempt(route, workerPid, n));
            committed ==> q.table == w.table && q.file == w.file && (w.run.required ==> q.run.finalSize == |w.file|)
  {
    hide Inv, Disturb, ObserveQuiescence, ProgressHandoff, SeenGone, HandoffCompletes.QuietHandoff;
    HandoffCompletes.QuietDisturb();
    QuietObservation(w, QuietAttempt(route, workerPid, n));
    HandoffCompletes.QuietHandoffCompletesIff(u, w, n);
    var h := HandoffCompletes.QuietHandoff(n);
    if ProgressHandoff(u, w, h).1.Complete? {
      HandoffCompletes.QuietHandoffOnlySeals(u, w, n);
      HandoffKeeps(u, w, h);
      if w.run.required {
        HandoffCompletes.CompleteMeansDrained(u, w, h);
      }
    }
  }

  // --- A process that leaves its group ---

  // One worker process is left of a run in cleanup; nothing was written yet.
  function LastMember(member: bool): World {
    var pgid := if member then 12 else 77;
    World(P.Table(map[1 := P.Proc(11, pgid, member, true, false)], 0, 10, 12, false, false), [],
      Run(CleanupRequired, [Created, Running, CleanupRequired], false, true, true, 0, -1, [], false), None)
  }

  lemma LastMemberIsFine(u: Unmarshal, member: bool)
    ensures Inv(u, LastMember(member)) && Steady(LastMember(member)) && TailInFile(LastMember(member))
  {
  }

  function Leaving(): Attempt {
    QuietAttempt(FromCleanup, 13, 1).(beforeSupervisor := [ProcessStep(P.LeaveGroup(1, 77))])
  }

  lemma LeavingLeaves(u: Unmarshal)
    ensures Publish(u, LastMember(true), Leaving()) == Publish(u, LastMember(false), QuietAttempt(FromCleanup, 13, 1))
  {
    hide Disturb, Disturb1, ProgressHandoff, P.SeenDead, P.ProcessAlive, P.GroupMembers;
    var w := LastMember(true);
    var step := ProcessStep(P.LeaveGroup(1, 77));
    assert Disturb1(w, step) == LastMember(false) by { LeaveGroupLeaves(); }
    assert Disturb(w, [step]) == LastMember(false) by { OneStep(w, step); }
    HandoffCompletes.QuietDisturb();
  }

  lemma LeaveGroupLeaves()
    ensures Disturb1(LastMember(true), ProcessStep(P.LeaveGroup(1, 77))) == LastMember(false)
  {
  }

  lemma OneStep(w: World, step: EnvStep)
    ensures Disturb(w, [step]) == Disturb1(w, step)
  {
    hide Disturb1;
    assert [step][1..] == [];
  }

  lemma StrayIsNotSeen()
    ensures SeenGone(LastMember(false).table, FromCleanup, 13)
  {
  }

  /** The last process of the group moves to a group of its own before the engine looks. The run is committed with
      an empty transcript, and what the process writes from then on is in the file but never stored. */
  lemma WriterOutlivesItsGroup(u: Unmarshal)
    ensures var w := LastMember(true);
            var (q, committed) := Publish(u, w, Leaving());
            && Inv(u, w) && MayWrite(w.table, 1)
            && committed && Finished(u, q) && P.Stray(q.table, 1)
            && var l := DoAllLater(u, q, [Daemon(Others(Write(1, [0x41])))]);
               l.file == q.file + [0x41] && l.run.finalSize == q.run.finalSize == |q.file|
  {
    hide Inv, Publish, DoAllLater, Finished, SeenGone, Leaving, QuietAttempt;
    LastMemberIsFine(u, true);
    LastMemberIsFine(u, false);
    LeavingLeaves(u);
    StrayIsNotSeen();
    QuietAttemptCommitsIff(u, LastMember(false), FromCleanup, 13, 1);
    var q := Publish(u, LastMember(true), Leaving()).0;
    PublishFinishes(u, LastMember(true), Leaving());
    StrayWrites(u, q, 1);
    TerminalIsFinal(u, LastMember(true), Leaving(), [Daemon(Others(Write(1, [0x41])))]);
  }
}
