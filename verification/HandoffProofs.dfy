/** What whole lives of a run keep, and what a completed handoff proves. */
module HandoffProofs {
  import opened Common
  import opened RunStore
  import opened TranscriptRecords
  import opened TranscriptTail
  import opened TranscriptHandoff
  import opened ExactlyOnce
  import P = Processes

  lemma MarkKeeps(u: Unmarshal, w: World, ok: bool)
    requires Inv(u, w) && Steady(w)
    ensures Inv(u, MarkAuthorityFailure(w, ok)) && Steady(MarkAuthorityFailure(w, ok))
    ensures Follows(w.run, MarkAuthorityFailure(w, ok).run)
  {
    hide Inv;
    if Transition(w.run, CleanupRequired).Some? {
      CallKeeps(u, w, TransitionCall(CleanupRequired));
    }
  }

  lemma OpenTailKeeps(u: Unmarshal, w: World, offset: nat)
    requires Inv(u, w) && offset <= |w.file|
    requires offset == w.run.consumed || (offset == 0 && w.run.events == [])
    ensures Inv(u, w.(tail := Some(Tail(offset, offset))))
  {
  }

  lemma StartTailingKeeps(u: Unmarshal, w: World, offset: nat, o: Opening)
    requires Inv(u, w) && Steady(w) && TailInFile(w)
    requires offset == w.run.consumed || (offset == 0 && w.run.events == [])
    ensures Inv(u, StartTailing(w, offset, o)) && Steady(StartTailing(w, offset, o))
    ensures Follows(w.run, StartTailing(w, offset, o).run)
  {
    hide Inv;
    MarkKeeps(u, w, o.markOk);
    if offset <= |w.file| {
      OpenTailKeeps(u, w, offset);
    }
  }

  lemma TailTranscriptKeeps(u: Unmarshal, w: World, p: Pass)
    requires Inv(u, w) && Steady(w) && TailInFile(w)
    requires w.tail.None? ==> w.run.events == []
    ensures Inv(u, TailTranscript(u, w, p)) && Steady(TailTranscript(u, w, p))
    ensures Follows(w.run, TailTranscript(u, w, p).run)
  {
    hide Inv, Disturb, ReadLoop, StartTailing, MarkAuthorityFailure;
    var w1 := if w.tail.None? then StartTailing(w, 0, p.opening) else w;
    if w.tail.None? {
      StartTailingKeeps(u, w, 0, p.opening);
    }
    if w1.tail.Some? {
      DisturbKeeps(u, w1, p.before);
      var w2 := Disturb(w1, p.before);
      MarkKeeps(u, w2, p.markOk);
      if |w2.file| >= Max(w2.tail.value.offset, w2.run.consumed) {
        ReadLoopKeeps(u, w2, p.turns);
      }
    }
  }

  lemma DrainSealedKeeps(u: Unmarshal, w: World, size: nat, h: Handoff)
    requires Inv(u, w) && Steady(w) && TailInFile(w)
    ensures var (q, _) := DrainSealed(u, w, size, h); Inv(u, q) && Steady(q) && Follows(w.run, q.run)
  {
    hide Inv, Disturb, TailTranscript, P.Quiescent, P.SupervisorLive, Consistent, IsTerminal;
    DisturbKeeps(u, w, h.beforeReload);
    var w1 := Disturb(w, h.beforeReload);
    DisturbKeeps(u, w1, h.beforeBind);
    var w2 := Disturb(w1, h.beforeBind);
    var consumed := w1.run.consumed;
    if consumed <= size && |w2.file| == size {
      OpenTailKeeps(u, w2, consumed);
      var w3 := BindTail(w2, consumed);
      TailTranscriptKeeps(u, w3, h.pass);
      var w4 := if consumed < size then TailTranscript(u, w3, h.pass) else w3;
      DisturbKeeps(u, w4, h.beforeLast);
    }
  }

  lemma HandoffKeeps(u: Unmarshal, w: World, h: Handoff)
    requires Inv(u, w) && Steady(w) && TailInFile(w)
    ensures var (q, _) := ProgressHandoff(u, w, h); Inv(u, q) && Steady(q) && Follows(w.run, q.run)
  {
    hide Inv, Disturb, DrainSealed, Consistent;
    DisturbKeeps(u, w, h.beforeSeal);
    var w1 := Disturb(w, h.beforeSeal);
    var seal := SealTranscript(w1.run, |w.file|);
    if seal.Some? {
      CallKeeps(u, w1, SealCall(|w.file|));
      DrainSealedKeeps(u, w1.(run := seal.value), |w.file|, h);
    }
  }

  lemma DieKeeps(u: Unmarshal, w: World)
    requires Inv(u, w)
    ensures Inv(u, w.(tail := None)) && Inv(u, w.(tail := None, table := P.Orphan(w.table)))
  {
    hide P.WellFormed, P.Orphan, Consistent;
    P.LettingGoKeepsTable(w.table);
  }

  lemma ReapKeeps(u: Unmarshal, w: World)
    requires Inv(u, w)
    ensures Inv(u, w.(tail := None, table := P.ReapSupervisor(w.table)))
  {
    hide P.WellFormed, P.ReapSupervisor, Consistent, Events, Corrupt;
    P.LettingGoKeepsTable(w.table);
  }

  lemma FailUnlaunchedKeeps(u: Unmarshal, w: World, noPids: bool)
    requires Inv(u, w) && SafeOp(w, FailUnlaunched(noPids)) && CommitNoProcessFailure(w.run, noPids).Some?
    ensures Inv(u, w.(run := CommitNoProcessFailure(w.run, noPids).value))
    ensures KeepsRecord(w.run, CommitNoProcessFailure(w.run, noPids).value)
  {
    hide P.WellFormed, Consistent, KeepsRecord, Events, Corrupt, IsTerminal;
    NoProcessKeepsRow(w.run, noPids);
    NoProcessCommit(w.run, noPids);
    NothingStored(u, w);
  }

  lemma NoProcessCommit(r: Run, noPids: bool)
    requires CommitNoProcessFailure(r, noPids).Some?
    ensures var q := CommitNoProcessFailure(r, noPids).value;
            && IsTerminal(q.state) && q.required == r.required && q.events == r.events
            && (if r.required then q.consumed == q.finalSize == 0
                else q.consumed == r.consumed && q.finalSize == r.finalSize)
  {
  }

  lemma NothingStored(u: Unmarshal, w: World)
    ensures Events(u, w.file[..0]) == [] && !Corrupt(u, w.file[..0])
  {
  }

  lemma DoKeeps(u: Unmarshal, w: World, op: Op)
    requires Inv(u, w) && Steady(w) && TailInFile(w) && SafeOp(w, op)
    ensures Inv(u, Do(u, w, op)) && Steady(Do(u, w, op)) && KeepsRecord(w.run, Do(u, w, op).run)
    ensures !op.FailUnlaunched? ==> Follows(w.run, Do(u, w, op).run)
  {
    hide Inv, Disturb1, StartTailing, TailTranscript, ProgressHandoff, CommitNoProcessFailure;
    match op
    case Others(step) => Disturb1Keeps(u, w, step);
    case Die => DieKeeps(u, w);
    case ReapSupervisor => ReapKeeps(u, w);
    case FailUnlaunched(noPids) =>
      if CommitNoProcessFailure(w.run, noPids).Some? {
        FailUnlaunchedKeeps(u, w, noPids);
      }
    case OpenAtDurable(opening) => StartTailingKeeps(u, w, w.run.consumed, opening);
    case DoPass(pass) => TailTranscriptKeeps(u, w, pass);
    case DoHandoff(handoff) => HandoffKeeps(u, w, handoff);
  }

  /** Exactly once. Over every interleaving of writes in any chunks, passes, broken reads, store
      failures, other store clients, kills, restarts at the durable offset, handoffs and failed launches: the stored
      events are exactly the well-formed records of the bytes before the consumed offset, in order,
      none lost or repeated; that offset is on a record boundary; and it lies past a malformed
      record only after cleanup_required was made durable, or on a terminal run that needs no
      transcript. */
  lemma {:induction false} LivesStoreExactlyOnce(u: Unmarshal, w: World, ops: seq<Op>)
    requires Inv(u, w) && Steady(w) && TailInFile(w) && SafeLife(u, w, ops)
    ensures var q := DoAll(u, w, ops);
            && Inv(u, q) && Steady(q) && KeepsRecord(w.run, q.run) && (LaunchedLife(ops) ==> Follows(w.run, q.run))
            && StoredExactly(u, q)
            && AtBoundary(q, q.run.consumed)
            && (Corrupt(u, q.file[..q.run.consumed]) ==>
                  CleanupRequired in q.run.visited || (!q.run.required && IsTerminal(q.run.state)))
    decreases ops
  {
    hide Do;
    if ops != [] {
      assert ops[0] in ops && forall op <- ops[1..] :: op in ops;
      DoKeeps(u, w, ops[0]);
      LivesStoreExactlyOnce(u, Do(u, w, ops[0]), ops[1..]);
    }
  }

  /** The same from any start: whatever processes there are and whatever the file already holds, from a new run
      on which no daemon has worked yet. */
  lemma WholeLivesStoreExactlyOnce(u: Unmarshal, t: P.Table, file: seq<byte>, required: bool, identityValid: bool,
                                   ops: seq<Op>)
    requires P.WellFormed(t)
    requires SafeLife(u, World(t, file, NewRun(required, identityValid), None), ops)
    ensures var q := DoAll(u, World(t, file, NewRun(required, identityValid), None), ops);
            && StoredExactly(u, q) && AtBoundary(q, q.run.consumed)
            && (Corrupt(u, q.file[..q.run.consumed]) ==>
                  CleanupRequired in q.run.visited || (!required && IsTerminal(q.run.state)))
  {
    hide Inv, DoAll, SafeLife;
    NewRunIsInOrder(u, t, file, required, identityValid);
    LivesStoreExactlyOnce(u, World(t, file, NewRun(required, identityValid), None), ops);
  }
}
