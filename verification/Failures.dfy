/** What a failing call of the daemon comes to: nothing is accounted for, and the reader goes back. */
module Failures {
  import opened Common
  import opened RunStore
  import opened TranscriptRecords
  import opened TranscriptTail
  import opened TranscriptHandoff
  import opened ExactlyOnce
  import opened Recovery
  import P = Processes

  // The reader is back at the accounted offset, and no event and no offset was stored.
  predicate WentBack(w: World, q: World)
    requires IsOpen(w) && IsOpen(q)
  {
    && q.tail.value.offset == q.tail.value.pos == w.tail.value.offset
    && q.run.events == w.run.events && q.run.consumed == w.run.consumed
  }

  // Which store calls a record needs when the daemon has loaded the row `r`.
  predicate CallsGoThrough(u: Unmarshal, line: seq<byte>, r: Run, t: Turn) {
    match Classify(u, line)
    case Blank => t.storeOk
    case Good(_, _) => t.storeOk
    case Malformed =>
      t.storeOk && (IsTerminal(r.state) || (t.advanceOk && (r.state.CleanupRequired? || t.transitionOk)))
  }

  lemma AdvanceFails(u: Unmarshal, w: World, end: nat, before: seq<EnvStep>, ok: bool)
    requires Inv(u, w) && IsOpen(w) && end <= w.tail.value.pos
    ensures var (q, more) := Advance(w, end, before, ok);
            && (!ok ==> WentBack(w, q) && !more)
            && (q.tail.value.offset == end || (WentBack(w, q) && !more))
  {
    hide Disturb, Inv;
    KeptByOthers(u, w, before);
  }

  /** A record whose store calls do not all go through is not accounted for: the reader goes back to where the record
      starts and the pass ends. In no case is a record half accounted for. */
  lemma FailedStoreGoesBack(u: Unmarshal, w: World, line: seq<byte>, end: nat, atEnd: bool, t: Turn)
    requires Inv(u, w) && IsOpen(w) && end <= w.tail.value.pos
    ensures var (q, more) := StoreRecord(u, w, line, end, atEnd, t);
            && (!CallsGoThrough(u, line, Disturb(w, t.beforeStore).run, t) ==> WentBack(w, q) && !more)
            && (q.tail.value.offset == end || (WentBack(w, q) && !more))
  {
    hide Disturb, Inv, Advance, Classify, WentBack, IsTerminal;
    AdvanceFails(u, w, end, t.beforeStore, t.storeOk);
    if Classify(u, line).Malformed? {
      MalformedGoesBack(u, w, line, end, atEnd, t);
    } else if Classify(u, line).Good? {
      GoodGoesBack(u, w, line, end, atEnd, t);
    }
  }

  lemma KeptByOthers(u: Unmarshal, w: World, steps: seq<EnvStep>)
    requires Inv(u, w)
    ensures var q := Disturb(w, steps);
            Inv(u, q) && q.tail == w.tail && q.run.events == w.run.events && q.run.consumed == w.run.consumed
  {
    hide Inv, Disturb, P.Quiescent, P.Silent, P.SupervisorLive, Consistent;
    DisturbKeeps(u, w, steps);
  }

  lemma GoodGoesBack(u: Unmarshal, w: World, line: seq<byte>, end: nat, atEnd: bool, t: Turn)
    requires Inv(u, w) && IsOpen(w) && end <= w.tail.value.pos && Classify(u, line).Good?
    ensures var (q, more) := StoreRecord(u, w, line, end, atEnd, t);
            && (!t.storeOk ==> WentBack(w, q) && !more)
            && (q.tail.value.offset == end || (WentBack(w, q) && !more))
  {
    hide Disturb, Inv, Advance, Classify;
    KeptByOthers(u, w, t.beforeStore);
  }

  lemma MalformedGoesBack(u: Unmarshal, w: World, line: seq<byte>, end: nat, atEnd: bool, t: Turn)
    requires Inv(u, w) && IsOpen(w) && end <= w.tail.value.pos && Classify(u, line).Malformed?
    ensures var (q, more) := StoreRecord(u, w, line, end, atEnd, t);
            && (!CallsGoThrough(u, line, Disturb(w, t.beforeStore).run, t) ==> WentBack(w, q) && !more)
            && (q.tail.value.offset == end || (WentBack(w, q) && !more))
  {
    hide Disturb, Inv, Advance, Classify, CanTransition, IsTerminal, Transition;
    KeptByOthers(u, w, t.beforeStore);
    var w1 := Disturb(w, t.beforeStore);
    AdvanceFails(u, w1, end, t.beforeAdvance, t.advanceOk);
    KeptByOthers(u, w1, t.beforeTransition);
    var w2 := Disturb(w1, t.beforeTransition);
    var moved := Transition(w2.run, CleanupRequired);
    if moved.Some? {
      CallKeeps(u, w2, TransitionCall(CleanupRequired));
      AdvanceFails(u, w2.(run := moved.value), end, t.beforeAdvance, t.advanceOk);
    }
  }

  /** A line without its newline is left for later, unless the read was whole, the row could be loaded, and the line
      ends at the seal. */
  lemma UnfinishedLineWaits(u: Unmarshal, w: World, start: nat, t: Turn)
    requires Inv(u, w) && IsOpen(w) && w.tail.value.offset <= start < w.tail.value.pos
    requires w.file[w.tail.value.pos - 1] != LINE_FEED
    requires var end := w.tail.value.offset + (w.tail.value.pos - start);
             t.read.Broken? || !t.progressOk || Disturb(w, t.beforeProgress).run.finalSize != end
    ensures var (q, more) := TakeLine(u, w, start, t); WentBack(w, q) && !more
  {
    hide Disturb, Inv, StoreRecord;
    KeptByOthers(u, w, t.beforeProgress);
    var line := w.file[start..w.tail.value.pos];
    assert line[|line| - 1] == w.file[w.tail.value.pos - 1];
  }

  /** A pass reads nothing when the row cannot be loaded or has ended. */
  lemma PassStops(u: Unmarshal, w: World, p: Pass)
    requires IsOpen(w) && (!p.runOk || IsTerminal(Disturb(w, p.before).run.state))
    ensures TailTranscript(u, w, p) == Disturb(w, p.before)
  {
    hide Disturb, ReadLoop;
  }

  /** A handoff of a required run is complete only when each of its own calls went through. */
  lemma CompleteNeedsEveryCall(u: Unmarshal, w: World, h: Handoff)
    requires TailInFile(w) && w.run.required && ProgressHandoff(u, w, h).1 == Complete
    ensures w.run.identityValid && h.loadOk && h.statOk && h.sealOk && h.reloadOk && h.bindOk && h.lastOk
  {
    hide Disturb, TailTranscript;
  }

  /** A run is committed only when the group could be listed and the commit went through. */
  lemma CommitNeedsEveryCall(u: Unmarshal, w: World, a: Attempt)
    requires TailInFile(w) && Publish(u, w, a).1
    ensures a.groupOk && a.commitOk
  {
    hide Disturb, ProgressHandoff;
  }
}
