/**
 Opening a tail, a whole tail pass, and the quiescent handoff that seals and drains the file.
 */
module TranscriptHandoff {
  import opened Common
  import opened RunStore
  import opened TranscriptRecords
  import opened TranscriptTail
  import P = Processes

  predicate TailInFile(w: World) { w.tail.Some? ==> IsOpen(w) }

  // How opening the named file goes. `prelaunch`: the run has no process yet.
  datatype Opening = Opening(runOk: bool, fileOk: bool, seekOk: bool, prelaunch: bool, markOk: bool)

  function MarkAuthorityFailure(w: World, ok: bool): World {
    var moved := Transition(w.run, CleanupRequired);
    if ok && moved.Some? then w.(run := moved.value) else w
  }

  function StartTailing(w: World, offset: nat, o: Opening): (w': World)
    requires TailInFile(w)
    ensures TailInFile(w')
  {
    if !o.runOk || IsTerminal(w.run.state) then w
    else if !o.fileOk then (if o.prelaunch then w else MarkAuthorityFailure(w, o.markOk))
    else if offset > |w.file| then MarkAuthorityFailure(w, o.markOk)
    else if !o.seekOk || w.tail.Some? then w
    else w.(tail := Some(Tail(offset, offset)))
  }

  datatype Pass = Pass(opening: Opening, before: seq<EnvStep>, runOk: bool, markOk: bool, turns: seq<Turn>)

  // A missing tail is opened at offset 0.
  function TailTranscript(u: Unmarshal, w: World, p: Pass): (w': World)
    requires TailInFile(w)
    ensures TailInFile(w')
  {
    var w1 := if w.tail.None? then StartTailing(w, 0, p.opening) else w;
    if w1.tail.None? then w1
    else
      var w2 := Disturb(w1, p.before);
      if !p.runOk || IsTerminal(w2.run.state) then w2
      else if |w2.file| < Max(w2.tail.value.offset, w2.run.consumed) then MarkAuthorityFailure(w2, p.markOk)
      else ReadLoop(u, w2, p.turns)
  }

  // The open handle is moved to the durable offset unless it is already there.
  function BindTail(w: World, offset: nat): (w': World)
    requires TailInFile(w) && offset <= |w.file|
    ensures IsOpen(w')
  {
    if w.tail.Some? && w.tail.value.offset == offset then w else w.(tail := Some(Tail(offset, offset)))
  }

  datatype Handoff = Handoff(
    loadOk: bool, statOk: bool,
    beforeSeal: seq<EnvStep>, sealOk: bool,
    beforeReload: seq<EnvStep>, reloadOk: bool,
    beforeBind: seq<EnvStep>, bindOk: bool,
    pass: Pass,
    beforeLast: seq<EnvStep>, lastOk: bool)

  datatype Verdict = HandoffError | Incomplete | Complete

  function ProgressHandoff(u: Unmarshal, w: World, h: Handoff): (r: (World, Verdict))
    requires TailInFile(w)
    ensures TailInFile(r.0)
  {
    if !w.run.required then (w, Complete)
    else if !w.run.identityValid || !h.loadOk || !h.statOk then (w, HandoffError)
    else
      var size := |w.file|;
      if w.run.consumed > size then (w, HandoffError)
      else
        var w1 := Disturb(w, h.beforeSeal);
        var seal := SealTranscript(w1.run, size);
        if !h.sealOk || seal.None? then (w1, HandoffError)
        else DrainSealed(u, w1.(run := seal.value), size, h)
  }

  // The transcript is sealed at `size`; drain it and look again.
  function DrainSealed(u: Unmarshal, w: World, size: nat, h: Handoff): (r: (World, Verdict))
    requires TailInFile(w)
    ensures TailInFile(r.0)
  {
    var w1 := Disturb(w, h.beforeReload);
    if !h.reloadOk || w1.run.finalSize != size || w1.run.consumed > size then (w1, HandoffError)
    else
      var consumed := w1.run.consumed;
      var w2 := Disturb(w1, h.beforeBind);
      if !h.bindOk || |w2.file| != size then (w2, HandoffError)
      else
        var w3 := BindTail(w2, consumed);
        var w4 := if consumed < size then TailTranscript(u, w3, h.pass) else w3;
        var w5 := Disturb(w4, h.beforeLast);
        if !h.lastOk || w5.tail.None? || |w5.file| != size then (w5, HandoffError)
        else if w5.run.finalSize == size && w5.run.consumed == size then (w5, Complete)
        else (w5, Incomplete)
  }

  // --- Whole lives of one run under one or many daemons ---

  datatype Op =
    | Others(step: EnvStep)
    | Die
    | ReapSupervisor
    | FailUnlaunched(noPids: bool)
    | OpenAtDurable(opening: Opening)
    | DoPass(pass: Pass)
    | DoHandoff(handoff: Handoff)

  function Do(u: Unmarshal, w: World, op: Op): (w': World)
    requires TailInFile(w)
    ensures TailInFile(w')
  {
    match op
    case Others(step) => Disturb1(w, step)
    case Die => w.(tail := None, table := P.Orphan(w.table))
    case ReapSupervisor =>
      if IsTerminal(w.run.state) && P.ExitedChild(w.table)
      then w.(tail := None, table := P.ReapSupervisor(w.table))
      else w
    case FailUnlaunched(noPids) =>
      var failed := CommitNoProcessFailure(w.run, noPids);
      if failed.Some? then w.(run := failed.value) else w
    case OpenAtDurable(opening) => StartTailing(w, w.run.consumed, opening)
    case DoPass(pass) => TailTranscript(u, w, pass)
    case DoHandoff(handoff) => ProgressHandoff(u, w, handoff).0
  }

  function DoAll(u: Unmarshal, w: World, ops: seq<Op>): (w': World)
    requires TailInFile(w)
    ensures TailInFile(w')
    decreases ops
  {
    if ops == [] then w else DoAll(u, Do(u, w, ops[0]), ops[1..])
  }

  // A pass opens a missing tail at offset 0 only while nothing has been stored, and a launch fails without a
  // process only then, where the transcript is required.
  predicate SafeOp(w: World, op: Op) {
    && (op.DoPass? && w.tail.None? ==> w.run.events == [])
    && (op.FailUnlaunched? && CommitNoProcessFailure(w.run, op.noPids).Some? ==> !w.run.required || w.run.events == [])
  }

  predicate SafeLife(u: Unmarshal, w: World, ops: seq<Op>)
    requires TailInFile(w)
    decreases ops
  {
    ops == [] || (SafeOp(w, ops[0]) && SafeLife(u, Do(u, w, ops[0]), ops[1..]))
  }

  predicate LaunchedLife(ops: seq<Op>) { forall op <- ops :: !op.FailUnlaunched? }
}
