/**
 When nothing interferes: one handoff drains the file, and exactly when opening a missing tail
 at offset 0 duplicates.
 */
module HandoffCompletes {
  import opened Common
  import opened RunStore
  import opened TranscriptRecords
  import opened TranscriptTail
  import opened TranscriptHandoff
  import opened ExactlyOnce
  import opened HandoffProofs
  import P = Processes

  function QuietTurns(n: nat): seq<Turn> { seq(n, _ => QUIET) }

  // A tail on a record boundary of a live run, unsealed or sealed at the file's size.
  ghost predicate Ready(w: World) {
    && IsOpen(w) && Steady(w) && Boundary(w.file, w.tail.value.offset)
    && !IsTerminal(w.run.state)
    && (w.run.finalSize < 0 || w.run.finalSize == |w.file|)
  }

  // Only the transcript accounting of the row has moved.
  ghost predicate OnlyAccounted(w: World, q: World) {
    && q.file == w.file && q.table == w.table
    && q.run.finalSize == w.run.finalSize && q.run.required == w.run.required
    && q.run.identityValid == w.run.identityValid
    && (q.run.state == w.run.state || q.run.state.CleanupRequired?)
  }

  ghost predicate Stored(u: Unmarshal, w: World, q: World, end: nat)
    requires IsOpen(w) && w.tail.value.offset <= end <= |w.file|
  {
    && OnlyAccounted(w, q)
    && q.tail == Some(Tail(end, end))
    && q.run.events == w.run.events + EventOf(u, NextLine(w, end), end)
    && q.run.consumed == Max(w.run.consumed, end)
  }

  lemma QuietDisturb()
    ensures forall v: World {:trigger Disturb(v, [])} :: Disturb(v, []) == v
  {
  }

  // Advancing, and what an event adds, when the seal is not in the way.
  lemma QuietAdvance(w: World, end: nat)
    requires IsOpen(w) && end == w.tail.value.pos && WithinSeal(w.run, end)
    ensures Advance(w, end, [], true) ==
            (Accounted(w, w.run.(consumed := Max(w.run.consumed, end)), end), true)
  {
    QuietDisturb();
  }

  lemma QuietGood(u: Unmarshal, w: World, line: seq<byte>, end: nat, atEnd: bool)
    requires IsOpen(w) && end == w.tail.value.pos && WithinSeal(w.run, end) && !Classify(u, line).Malformed?
    ensures var (q, more) := StoreRecord(u, w, line, end, atEnd, QUIET);
            && q == Accounted(w, w.run.(events := w.run.events + EventOf(u, line, end),
                                        consumed := Max(w.run.consumed, end)), end)
            && (more || atEnd)
  {
    hide Classify, Disturb, Advance;
    QuietDisturb();
    QuietAdvance(w, end);
    assert w.run.events + [] == w.run.events;
  }

  lemma QuietMalformed(u: Unmarshal, w: World, line: seq<byte>, end: nat, atEnd: bool)
    requires IsOpen(w) && end == w.tail.value.pos && WithinSeal(w.run, end) && Classify(u, line).Malformed?
    requires !IsTerminal(w.run.state)
    ensures var r := if w.run.state.CleanupRequired? then w.run else MoveTo(w.run, CleanupRequired);
            StoreRecord(u, w, line, end, atEnd, QUIET) ==
            (Accounted(w, r.(consumed := Max(r.consumed, end)), end), true)
  {
    hide Classify, Disturb, Advance;
    QuietDisturb();
    var r := if w.run.state.CleanupRequired? then w.run else MoveTo(w.run, CleanupRequired);
    QuietAdvance(w.(run := r), end);
  }

  lemma QuietRecord(u: Unmarshal, w: World, end: nat, atEnd: bool)
    requires IsOpen(w) && w.tail.value.offset < end == w.tail.value.pos
    requires !IsTerminal(w.run.state) && (w.run.finalSize < 0 || w.run.finalSize == |w.file|)
    ensures var (q, more) := StoreRecord(u, w, NextLine(w, end), end, atEnd, QUIET);
            Stored(u, w, q, end) && (more || atEnd)
  {
    hide Classify, StoreRecord, IsTerminal, NextLine;
    var line := NextLine(w, end);
    if Classify(u, line).Malformed? {
      QuietMalformed(u, w, line, end, atEnd);
      assert w.run.events + EventOf(u, line, end) == w.run.events;
    } else {
      QuietGood(u, w, line, end, atEnd);
    }
  }

  lemma QuietTurn(u: Unmarshal, w: World)
    requires Ready(w)
    ensures var (q, more) := ReadTurn(u, w, QUIET);
            var end := w.tail.value.offset + RecordLength(w.file, w.tail.value.offset);
            if w.tail.value.offset == |w.file| || (w.file[end - 1] != LINE_FEED && w.run.finalSize < 0)
            then q == w && !more
            else Stored(u, w, q, end) && (more || w.file[end - 1] != LINE_FEED)
  {
    hide StoreRecord, Stored, EventOf;
    var o := w.tail.value.offset;
    var end := o + RecordLength(w.file, o);
    var w1 := ReadLine(w, QUIET);
    assert w1 == w.(tail := Some(Tail(o, end)));
    assert w1.file[o..end] == NextLine(w1, end);
    if o < |w.file| && (w.file[end - 1] == LINE_FEED || w.run.finalSize >= 0) {
      QuietRecord(u, w1, end, w.file[end - 1] != LINE_FEED);
      StoredFrom(u, w, w1, end, ReadTurn(u, w, QUIET).0);
    }
  }

  lemma StoredFrom(u: Unmarshal, w: World, w1: World, end: nat, q: World)
    requires IsOpen(w) && w.tail.value.offset <= end <= |w.file|
    requires w1 == w.(tail := Some(Tail(w.tail.value.offset, end))) && Stored(u, w1, q, end)
    ensures Stored(u, w, q, end)
  {
  }

  ghost function StopAt(w: World): nat {
    if w.run.finalSize == |w.file| then |w.file| else LineStart(w.file, |w.file|)
  }

  lemma EndTurn(u: Unmarshal, w: World)
    requires IsOpen(w) && Steady(w) && w.tail.value.offset == |w.file|
    ensures ReadTurn(u, w, QUIET) == (w, false)
  {
  }

  // Sequence bookkeeping: what follows `a` in `c` is `x`, then what follows `a + x`.
  lemma Remainder(a: seq<Event>, x: seq<Event>, c: seq<Event>)
    requires a + x <= c
    ensures a <= c && c[|a|..] == x + c[|a + x|..]
  {
  }

  lemma QuietTurnsUnfold(n: nat)
    requires n > 0
    ensures |QuietTurns(n)| == n && QuietTurns(n)[0] == QUIET && QuietTurns(n)[1..] == QuietTurns(n - 1)
  {
  }

  ghost predicate Drained(u: Unmarshal, w: World, q: World)
    requires IsOpen(w)
  {
    var o := w.tail.value.offset;
    var stop := StopAt(w);
    && OnlyAccounted(w, q)
    && o <= stop
    && q.tail == Some(Tail(stop, stop))
    && Events(u, w.file[..o]) <= Events(u, w.file[..stop])
    && q.run.events == w.run.events + Events(u, w.file[..stop])[|Events(u, w.file[..o])|..]
    && q.run.consumed == if o == stop then w.run.consumed else Max(w.run.consumed, stop)
  }

  // One record, then the rest of the file.
  lemma DrainStep(u: Unmarshal, w: World, q: World, end: nat, r: World)
    requires Ready(w) && w.tail.value.offset < end <= |w.file| && Boundary(w.file, end)
    requires forall k :: w.tail.value.offset <= k < end - 1 ==> w.file[k] != LINE_FEED
    requires Stored(u, w, q, end) && Drained(u, q, r)
    ensures Drained(u, w, r)
  {
    hide Events, Corrupt, EventOf, LineStart, Boundary;
    var o, stop, x := w.tail.value.offset, StopAt(w), EventOf(u, NextLine(w, end), end);
    assert StopAt(q) == stop;
    NextRecord(u, w.file, o, end);
    Remainder(Events(u, w.file[..o]), x, Events(u, w.file[..stop]));
    assert w.run.events + x + Events(u, w.file[..stop])[|Events(u, w.file[..end])|..] ==
           w.run.events + Events(u, w.file[..stop])[|Events(u, w.file[..o])|..];
  }

  lemma DrainLast(u: Unmarshal, w: World, q: World)
    requires Ready(w) && w.tail.value.offset < |w.file| == w.run.finalSize
    requires forall k :: w.tail.value.offset <= k < |w.file| - 1 ==> w.file[k] != LINE_FEED
    requires Stored(u, w, q, |w.file|)
    ensures Drained(u, w, q)
  {
    hide Events, Corrupt, EventOf, LineStart;
    NextRecord(u, w.file, w.tail.value.offset, |w.file|);
  }

  lemma DrainNothing(u: Unmarshal, w: World)
    requires Ready(w)
    requires forall k :: w.tail.value.offset <= k < |w.file| ==> w.file[k] != LINE_FEED
    requires w.tail.value.offset < |w.file| ==> w.run.finalSize < 0
    ensures Drained(u, w, w)
  {
  }

  /** An undisturbed pass accounts for every complete record from its offset on, and its loop needs
      no more turns than there are bytes remaining, plus one to meet the end. */
  lemma {:induction false} QuietLoop(u: Unmarshal, w: World, n: nat)
    requires Ready(w) && n > |w.file| - w.tail.value.offset
    ensures Drained(u, w, ReadLoop(u, w, QuietTurns(n)))
    decreases n
  {
    hide Drained, ReadTurn, EventOf, QuietTurns;
    var o := w.tail.value.offset;
    var end := o + RecordLength(w.file, o);
    QuietTurn(u, w);
    QuietTurnsUnfold(n);
    var (q, more) := ReadTurn(u, w, QUIET);
    if o == |w.file| || (w.file[end - 1] != LINE_FEED && w.run.finalSize < 0) {
      DrainNothing(u, w);
    } else if w.file[end - 1] == LINE_FEED {
      QuietLoop(u, q, n - 1);
      assert ReadLoop(u, w, QuietTurns(n)) == ReadLoop(u, q, QuietTurns(n - 1));
      DrainStep(u, w, q, end, ReadLoop(u, q, QuietTurns(n - 1)));
    } else {
      DrainLast(u, w, q);
      EndTurn(u, q);
      QuietTurnsUnfold(n - 1);
    }
  }

  const FINE := Opening(true, true, true, false, true)

  function QuietPass(n: nat): Pass { Pass(FINE, [], true, true, QuietTurns(n)) }

  function QuietHandoff(n: nat): Handoff {
    Handoff(true, true, [], true, [], true, [], true, QuietPass(n), [], true)
  }

  // Drain from the durable offset after the seal at the file's size.
  lemma QuietDrain(u: Unmarshal, w: World, n: nat)
    requires Inv(u, w) && Steady(w) && TailInFile(w) && n > |w.file|
    requires w.run.finalSize == |w.file| && w.run.required
    ensures var (q, verdict) := DrainSealed(u, w, |w.file|, QuietHandoff(n));
            verdict == Complete && OnlyAccounted(w, q)
  {
    hide Events, Corrupt, EventOf, ReadLoop, Disturb, P.WellFormed;
    QuietDisturb();
    var w3 := BindTail(w, w.run.consumed);
    if w.run.consumed < |w.file| {
      assert Ready(w3);
      QuietLoop(u, w3, n);
    }
  }

  /** With nothing in the way, one call of the handoff completes exactly when the run does not
      require a transcript, or has a valid file identity and is unsealed or sealed at the file's
      size: corrupt records and an unterminated last record do not stop it. */
  lemma QuietHandoffCompletesIff(u: Unmarshal, w: World, n: nat)
    requires Inv(u, w) && Steady(w) && TailInFile(w) && n > |w.file|
    ensures ProgressHandoff(u, w, QuietHandoff(n)).1 == Complete
       <==> !w.run.required || (w.run.identityValid && (w.run.finalSize < 0 || w.run.finalSize == |w.file|))
  {
    hide Inv, Disturb, DrainSealed;
    QuietDisturb();
    var seal := SealTranscript(w.run, |w.file|);
    if w.run.required && seal.Some? {
      CallKeeps(u, w, SealCall(|w.file|));
      QuietDrain(u, w.(run := seal.value), n);
    }
    assert w.run.consumed <= |w.file| by { ConsumedInFile(u, w); }
  }

  // It touches the state of the row only to declare a corrupt record.
  lemma QuietHandoffOnlySeals(u: Unmarshal, w: World, n: nat)
    requires Inv(u, w) && Steady(w) && TailInFile(w) && n > |w.file|
    requires ProgressHandoff(u, w, QuietHandoff(n)).1 == Complete
    ensures var q := ProgressHandoff(u, w, QuietHandoff(n)).0;
            && q.table == w.table && q.file == w.file
            && (q.run.state == w.run.state || q.run.state.CleanupRequired?)
  {
    hide Inv, Disturb, DrainSealed;
    QuietDisturb();
    var seal := SealTranscript(w.run, |w.file|);
    if w.run.required && seal.Some? {
      CallKeeps(u, w, SealCall(|w.file|));
      QuietDrain(u, w.(run := seal.value), n);
    }
  }

  lemma ConsumedInFile(u: Unmarshal, w: World)
    requires Inv(u, w)
    ensures w.run.consumed <= |w.file|
  {
  }

  /** Whatever happens meanwhile, a handoff of a required run reports complete only when the run is
      sealed at the file's size, every byte is consumed, and the stored events are those of the
      whole file, its unterminated last record counting as one. */
  lemma CompleteMeansDrained(u: Unmarshal, w: World, h: Handoff)
    requires Inv(u, w) && Steady(w) && TailInFile(w) && w.run.required
    requires ProgressHandoff(u, w, h).1 == Complete
    ensures var q := ProgressHandoff(u, w, h).0;
            && q.run.finalSize == q.run.consumed == |q.file|
            && q.run.events == Events(u, q.file)
            && q.run.required
  {
    HandoffKeeps(u, w, h);
    hide Disturb, TailTranscript, Events, Corrupt, P.WellFormed;
    var q := ProgressHandoff(u, w, h).0;
    assert q.file[..|q.file|] == q.file;
  }

  lemma PassFromZero(u: Unmarshal, w: World, n: nat)
    requires Inv(u, w) && w.tail.None? && !IsTerminal(w.run.state) && n > |w.file|
    requires w.run.finalSize < 0 || w.run.finalSize == |w.file|
    ensures var q := TailTranscript(u, w, QuietPass(n));
            && OnlyAccounted(w, q)
            && q.run.events == w.run.events + Events(u, w.file[..StopAt(w)])
            && q.run.consumed == StopAt(w)
  {
    hide Events, Corrupt, EventOf, ReadLoop, Disturb, P.WellFormed;
    QuietDisturb();
    var w1 := w.(tail := Some(Tail(0, 0)));
    QuietLoop(u, w1, n);
    assert w.run.consumed <= StopAt(w);
    EmptyHasNoEvents(u, w.file);
  }

  /** Opening a missing tail at offset 0 is exactly-once if and only if no event was stored yet. */
  lemma OpenAtZeroIsExactIff(u: Unmarshal, w: World, n: nat)
    requires Inv(u, w) && w.tail.None? && !IsTerminal(w.run.state) && n > |w.file|
    requires w.run.finalSize < 0 || w.run.finalSize == |w.file|
    ensures StoredExactly(u, TailTranscript(u, w, QuietPass(n))) <==> w.run.events == []
  {
    hide Events, Inv, TailTranscript;
    PassFromZero(u, w, n);
    assert [] + Events(u, w.file[..StopAt(w)]) == Events(u, w.file[..StopAt(w)]);
  }

  lemma EmptyHasNoEvents(u: Unmarshal, data: seq<byte>)
    ensures Events(u, data[..0]) == []
  {
  }

  // --- The duplicate, step by step ---

  const ONE_LINE: seq<byte> := [0x41, LINE_FEED]

  function NoProcesses(): P.Table { P.Table(map[], 0, 1, 2, false, false) }

  function FreshRun(): Run { Run(Running, [Created, Running], false, true, true, 0, -1, [], false) }

  function AnyEnvelope(): Unmarshal { _ => Some(Envelope("progress", [0x31])) }

  lemma OneLineIsGood()
    ensures Classify(AnyEnvelope(), ONE_LINE).Good?
  {
    assert TrimNewline(ONE_LINE) == [0x41];
    assert "progress"[0] == 'p' && !IsUnicodeSpace('p');
    assert TrimSpace([0x31]) == [0x31];
  }

  function OneLineWorld(): World { World(NoProcesses(), ONE_LINE, FreshRun(), None) }

  lemma OneLineWorldIsFine()
    ensures Inv(AnyEnvelope(), OneLineWorld())
  {
  }

  lemma FirstPassStoresTheLine()
    ensures var u := AnyEnvelope(); var q := TailTranscript(u, OneLineWorld(), QuietPass(3));
            && Inv(u, q)
            && q.run.events != [] && q.file == ONE_LINE && q.run.finalSize == -1 && !IsTerminal(q.run.state)
  {
    hide Inv, TailTranscript, Events, Corrupt, Classify;
    var u := AnyEnvelope();
    OneLineWorldIsFine();
    TailTranscriptKeeps(u, OneLineWorld(), QuietPass(3));
    PassFromZero(u, OneLineWorld(), 3);
    LineStartIs(ONE_LINE, 2, 2);
    NextRecord(u, ONE_LINE, 0, 2);
    OneLineIsGood();
    assert ONE_LINE[0..2] == ONE_LINE == ONE_LINE[..2];
  }

  /** A daemon stores the one record of the file and dies. The next daemon cannot open the file when
      it starts, so it has no tail; its next pass opens one at offset 0 and stores the record again. */
  lemma MissingTailDuplicates()
    ensures var u := AnyEnvelope();
            var unavailable := OpenAtDurable(FINE.(fileOk := false, markOk := false));
            var first := [DoPass(QuietPass(3)), Die, unavailable];
            && Inv(u, OneLineWorld())
            && StoredExactly(u, DoAll(u, OneLineWorld(), first))
            && !StoredExactly(u, Do(u, DoAll(u, OneLineWorld(), first), DoPass(QuietPass(3))))
  {
    hide Inv, TailTranscript, Events, QuietPass;
    var u := AnyEnvelope();
    OneLineWorldIsFine();
    FirstPassStoresTheLine();
    var w1 := TailTranscript(u, OneLineWorld(), QuietPass(3));
    DieKeeps(u, w1);
    var w2 := w1.(tail := None, table := P.Orphan(w1.table));
    var unavailable := OpenAtDurable(FINE.(fileOk := false, markOk := false));
    var first := [DoPass(QuietPass(3)), Die, unavailable];
    assert Do(u, w2, unavailable) == w2;
    assert first[1..] == [Die, unavailable] && first[1..][1..] == [unavailable];
    assert DoAll(u, w2, [unavailable]) == w2;
    assert DoAll(u, w1, [Die, unavailable]) == w2;
    OpenAtZeroIsExactIff(u, w2, 3);
    assert StoredExactly(u, w2) by { InvStoresExactly(u, w2); }
  }

  // The run after its one line was stored.
  ghost function StoredRun(): Run { FreshRun().(consumed := 2, events := Events(AnyEnvelope(), ONE_LINE)) }

  /** A running row without pids whose one record was stored: a no-process failure empties its transcript and
      keeps the event. */
  lemma NoProcessFailureOutlivesEvents()
    ensures var u := AnyEnvelope(); var w := World(NoProcesses(), ONE_LINE, StoredRun(), None);
            && Inv(u, w) && CommitNoProcessFailure(w.run, true).Some?
            && !StoredExactly(u, w.(run := CommitNoProcessFailure(w.run, true).value))
  {
    hide Events, Corrupt, Classify;
    var u := AnyEnvelope();
    var w := World(NoProcesses(), ONE_LINE, StoredRun(), None);
    NextRecord(u, ONE_LINE, 0, 2);
    EmptyHasNoEvents(u, ONE_LINE);
    NothingIsCorrupt(u, ONE_LINE);
    OneLineIsGood();
    assert ONE_LINE[0..2] == ONE_LINE == ONE_LINE[..2];
    assert Inv(u, w);
    NoProcessFailureIsExactIff(u, w);
  }

  lemma NothingIsCorrupt(u: Unmarshal, data: seq<byte>)
    ensures !Corrupt(u, data[..0])
  {
  }

  lemma InvStoresExactly(u: Unmarshal, w: World)
    requires Inv(u, w)
    ensures StoredExactly(u, w)
  {
  }
}
