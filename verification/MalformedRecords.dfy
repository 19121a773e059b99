/** When the tail passes a malformed record: after cleanup_required, or on a run that is already over. */
module MalformedRecords {
  import opened Common
  import opened RunStore
  import opened TranscriptRecords
  import opened TranscriptTail
  import opened ExactlyOnce
  import P = Processes

  /** A malformed record is accounted for without cleanup_required having been made durable exactly when
      the run was already terminal as it was loaded, and had never been through cleanup_required. */
  lemma PassedWithoutCleanupIff(u: Unmarshal, w: World, line: seq<byte>, end: nat, atEnd: bool, t: Turn)
    requires Inv(u, w) && OneRecord(w, end) && w.tail.value.pos == end && line == NextLine(w, end)
    requires Classify(u, line).Malformed?
    ensures var q := StoreRecord(u, w, line, end, atEnd, t).0;
            var loaded := Disturb(w, t.beforeStore);
            q.tail.value.offset == end && CleanupRequired !in q.run.visited <==>
            t.storeOk && IsTerminal(loaded.run.state) && CleanupRequired !in loaded.run.visited
  {
    hide Inv, Disturb, Advance, Classify, Undisturbed;
    var w1 := Disturb(w, t.beforeStore);
    DisturbKeepsRecord(u, w, end, t.beforeStore);
    if t.storeOk && !IsTerminal(w1.run.state) {
      if w1.run.state.CleanupRequired? {
        AdvanceVisits(u, w1, end, t.beforeAdvance, t.advanceOk);
      } else if CanTransition(w1.run.state, CleanupRequired) {
        DisturbKeepsRecord(u, w1, end, t.beforeTransition);
        var w2 := Disturb(w1, t.beforeTransition);
        var moved := Transition(w2.run, CleanupRequired);
        if moved.Some? {
          CallKeeps(u, w2, TransitionCall(CleanupRequired));
          AdvanceVisits(u, w2.(run := moved.value), end, t.beforeAdvance, t.advanceOk);
        }
      }
    }
  }

  lemma AdvanceVisits(u: Unmarshal, w: World, end: nat, before: seq<EnvStep>, ok: bool)
    requires Inv(u, w) && OneRecord(w, end) && CleanupRequired in w.run.visited
    ensures var q := Advance(w, end, before, ok).0; CleanupRequired in q.run.visited && IsOpen(q)
  {
    hide Inv, Disturb, P.Quiescent, P.SupervisorLive, Consistent;
    DisturbKeepsRecord(u, w, end, before);
  }

  // --- It happens ---

  const BAD: byte := 0x78
  const FINE: byte := 0x79
  const TWO_LINES: seq<byte> := [BAD, LINE_FEED, FINE, LINE_FEED]

  // A reader of JSON that makes an event of the second line and nothing of the first.
  function Reader(line: seq<byte>): Option<Envelope> {
    if line == [FINE] then Some(Envelope("k", [0x31])) else None
  }

  const UNREQUIRED := Run(Running, [Running], false, false, true, 0, -1, [], false)

  // The run is committed while the malformed record is in the daemon's hands.
  const OVERTAKEN := QUIET.(beforeStore := [StoreCall(CommitCall(Completed))])

  lemma FirstLine(w: World)
    requires w.file == TWO_LINES && w.run == UNREQUIRED && w.tail == Some(Tail(0, 0))
    ensures var over := MoveTo(UNREQUIRED, Completed).(outbox := true);
            ReadTurn(Reader, w, OVERTAKEN) == (w.(run := over, tail := Some(Tail(2, 2))), true)
  {
    assert RecordLength(TWO_LINES, 1) == 1 && RecordLength(TWO_LINES, 0) == 2;
    var line := TWO_LINES[0..2];
    assert line == [BAD, LINE_FEED] && TrimNewline(line) == [BAD];
    assert Classify(Reader, line).Malformed?;
    assert [StoreCall(CommitCall(Completed))][1..] == [];
  }

  lemma SecondLine(w: World)
    requires w.file == TWO_LINES && w.tail == Some(Tail(2, 2)) && w.run.finalSize < 0 && w.run.consumed == 0
    ensures var q := ReadTurn(Reader, w, QUIET).0;
            q.file == TWO_LINES && q.run == w.run.(events := w.run.events + [Event("k", [0x31], 4)], consumed := 4)
  {
    hide Classify;
    assert RecordLength(TWO_LINES, 3) == 1 && RecordLength(TWO_LINES, 2) == 2;
    var line := TWO_LINES[2..4];
    assert line == [FINE, LINE_FEED];
    FineLineIsGood();
  }

  lemma FineLineIsGood()
    ensures Classify(Reader, [FINE, LINE_FEED]) == Good("k", [0x31])
  {
    assert TrimNewline([FINE, LINE_FEED]) == [FINE];
    assert "k"[0] == 'k' && !IsUnicodeSpace('k') && TrimSpace([0x31]) == [0x31];
  }

  /** A run that needs no transcript can be consumed past a malformed record and never have been in
      cleanup_required: it was committed while the tail held that record. */
  lemma UnrequiredRunSkipsMalformed(w: World)
    requires w.file == TWO_LINES && w.run == UNREQUIRED && w.tail == Some(Tail(0, 0))
    ensures var q := ReadLoop(Reader, w, [OVERTAKEN, QUIET]);
            && q.file == TWO_LINES && q.run.consumed == 4 && Corrupt(Reader, TWO_LINES[..4])
            && CleanupRequired !in q.run.visited
  {
    hide ReadTurn, Classify;
    FirstLine(w);
    var next := ReadTurn(Reader, w, OVERTAKEN).0;
    SecondLine(next);
    assert [OVERTAKEN, QUIET][1..] == [QUIET];
    OneTurn(next);
    FileIsCorrupt();
  }

  lemma OneTurn(w: World)
    requires IsOpen(w)
    ensures ReadLoop(Reader, w, [QUIET]) == ReadTurn(Reader, w, QUIET).0
  {
  }

  lemma FileIsCorrupt()
    ensures Corrupt(Reader, TWO_LINES[..4])
  {
    hide Corrupt, Classify;
    assert TWO_LINES[0..2] == [BAD, LINE_FEED];
    BadLineIsMalformed();
    NextRecord(Reader, TWO_LINES, 0, 2);
    NextRecord(Reader, TWO_LINES, 2, 4);
  }

  lemma BadLineIsMalformed()
    ensures Classify(Reader, [BAD, LINE_FEED]).Malformed?
  {
    assert TrimNewline([BAD, LINE_FEED]) == [BAD];
  }
}
