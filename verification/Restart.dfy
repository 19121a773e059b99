/** Opening a tail, and the restart that resumes at the durable offset. */
module Restart {
  import opened Common
  import opened RunStore
  import opened TranscriptRecords
  import opened TranscriptTail
  import opened TranscriptHandoff
  import opened ExactlyOnce
  import opened HandoffProofs
  import opened HandoffCompletes
  import P = Processes

  // --- When there is a tail ---

  // The open of a named file goes through.
  predicate Opens(w: World, offset: nat, o: Opening) {
    o.runOk && !IsTerminal(w.run.state) && o.fileOk && o.seekOk && offset <= |w.file|
  }

  // It fails in a way that the daemon takes for lost authority.
  predicate LosesAuthority(w: World, offset: nat, o: Opening) {
    && o.runOk && !IsTerminal(w.run.state)
    && (if o.fileOk then offset > |w.file| else !o.prelaunch)
  }

  /** Opening leaves a tail exactly when there was one or the open went through; a new one stands at the asked offset,
      and the run is sent to cleanup exactly when authority was lost and the store let it. Nothing else changes. */
  lemma OpeningLeavesATailIff(w: World, offset: nat, o: Opening)
    requires TailInFile(w)
    ensures var q := StartTailing(w, offset, o);
            && q.file == w.file && q.table == w.table
            && (q.tail.Some? <==> w.tail.Some? || Opens(w, offset, o))
            && (w.tail.Some? ==> q.tail == w.tail)
            && (w.tail.None? && q.tail.Some? ==> q.tail.value.offset == q.tail.value.pos == offset)
            && (q.run != w.run <==>
                  LosesAuthority(w, offset, o) && o.markOk && CanTransition(w.run.state, CleanupRequired))
            && (q.run != w.run ==> q.run == MoveTo(w.run, CleanupRequired))
  {
    assert |MoveTo(w.run, CleanupRequired).visited| > |w.run.visited|;
  }

  // --- A restart ---

  // The complete records of the file, or all of it once it is sealed.
  ghost function Accountable(w: World): nat {
    if w.run.finalSize == |w.file| then |w.file| else LineStart(w.file, |w.file|)
  }

  // A live run with the daemon just started on it.
  lemma Resumed(u: Unmarshal, w: World, n: nat)
    requires Inv(u, w) && w.tail.None? && !IsTerminal(w.run.state) && n > |w.file|
    requires w.run.finalSize < 0 || w.run.finalSize == |w.file|
    ensures var q := Do(u, Do(u, w, OpenAtDurable(FINE)), DoPass(QuietPass(n)));
            && q.file == w.file && q.run.finalSize == w.run.finalSize
            && q.run.consumed == Accountable(w)
            && q.run.events == Events(u, w.file[..Accountable(w)])
            && q.tail == Some(Tail(Accountable(w), Accountable(w)))
  {
    hide Events, Corrupt, EventOf, ReadLoop, Disturb, P.WellFormed, LineStart;
    QuietDisturb();
    var o := w.run.consumed;
    var w1 := w.(tail := Some(Tail(o, o)));
    if o == |w.file| {
      AllConsumed(u, w1, n);
    } else {
      assert Ready(w1);
      QuietLoop(u, w1, n);
    }
  }

  lemma AllConsumed(u: Unmarshal, w: World, n: nat)
    requires IsOpen(w) && Steady(w) && w.tail.value.offset == |w.file| && n > 0
    ensures ReadLoop(u, w, QuietTurns(n)) == w
  {
    hide ReadTurn;
    EndTurn(u, w);
    QuietTurnsUnfold(n);
  }

  /** Whenever a daemon dies on a live run and another one opens the transcript at the durable offset, one undisturbed
      pass later every complete record of the file is stored exactly once, in order, and consumed, whatever was
      stored before; once the transcript is sealed at its size, the unterminated last record too. */
  lemma RestartResumes(u: Unmarshal, w: World, n: nat)
    requires Inv(u, w) && TailInFile(w) && !IsTerminal(w.run.state) && n > |w.file|
    requires w.run.finalSize < 0 || w.run.finalSize == |w.file|
    ensures var q := DoAll(u, w, [Die, OpenAtDurable(FINE), DoPass(QuietPass(n))]);
            && q.file == w.file && q.run.finalSize == w.run.finalSize
            && q.run.consumed == Accountable(w)
            && q.run.events == Events(u, w.file[..Accountable(w)])
            && w.run.events <= q.run.events
            && (forall i, j :: 0 <= i < j < |q.run.events| ==> q.run.events[i].offset < q.run.events[j].offset)
            && q.tail == Some(Tail(Accountable(w), Accountable(w)))
  {
    hide Inv, Do, QuietPass, Accountable, Events;
    var w1 := Do(u, w, Die);
    Died(u, w);
    Resumed(u, w1, n);
    assert Accountable(w1) == Accountable(w) by { SameAccountable(w, w1); }
    var ops := [Die, OpenAtDurable(FINE), DoPass(QuietPass(n))];
    assert ops[1..][1..] == [DoPass(QuietPass(n))] && ops[1..][1..][1..] == [];
    assert DoAll(u, w, ops) == Do(u, Do(u, w1, OpenAtDurable(FINE)), DoPass(QuietPass(n))) by {
      ThreeOps(u, w, ops[0], ops[1], ops[2]);
    }
    EventsEndInOrder(u, w.file[..Accountable(w)]);
    StoredIsAPrefix(u, w);
  }

  lemma Died(u: Unmarshal, w: World)
    requires Inv(u, w) && TailInFile(w)
    ensures var q := Do(u, w, Die); Inv(u, q) && q.tail.None? && q.run == w.run && q.file == w.file
  {
    hide Inv;
    DieKeeps(u, w);
  }

  lemma SameAccountable(w: World, q: World)
    requires q.run == w.run && q.file == w.file
    ensures Accountable(q) == Accountable(w) <= |w.file|
  {
  }

  lemma ThreeOps(u: Unmarshal, w: World, a: Op, b: Op, c: Op)
    requires TailInFile(w)
    ensures DoAll(u, w, [a, b, c]) == Do(u, Do(u, Do(u, w, a), b), c)
  {
    hide Do, DoAll;
    var w1 := Do(u, w, a);
    assert [a, b, c][1..] == [b, c] && [b, c][1..] == [c] && [c][1..] == [];
    FirstOp(u, w, [a, b, c]);
    FirstOp(u, w1, [b, c]);
    FirstOp(u, Do(u, w1, b), [c]);
    FirstOp(u, Do(u, Do(u, w1, b), c), []);
  }

  lemma FirstOp(u: Unmarshal, w: World, ops: seq<Op>)
    requires TailInFile(w)
    ensures DoAll(u, w, ops) == if ops == [] then w else DoAll(u, Do(u, w, ops[0]), ops[1..])
  {
    hide Do;
  }

  lemma StoredIsAPrefix(u: Unmarshal, w: World)
    requires Inv(u, w) && (w.run.finalSize < 0 || w.run.finalSize == |w.file|)
    ensures Accountable(w) <= |w.file| && w.run.events <= Events(u, w.file[..Accountable(w)])
  {
    hide Events, Corrupt, P.WellFormed, Consistent, TailAgrees;
    if w.run.consumed != |w.file| {
      BoundaryIsAPrefix(u, w.file, w.run.consumed, Accountable(w));
    }
  }
}
