/** One read-only adapter session: the monitor, and the deadline, cancel and recover calls around it. */
module OmpSession {
  import opened Common

  datatype Kind = AuditStarted | AuditFinding | AuditCompleted

  datatype Event = Event(sequence: int, kind: Kind)

  const SCRIPT := [AuditStarted, AuditFinding, AuditCompleted]
  const EXPECTED := [Event(1, AuditStarted), Event(2, AuditFinding), Event(3, AuditCompleted)]

  datatype Adapter = Monitoring | CancelRequested | WaitingForHuman | Completed

  // session.state
  datatype Public = Public(adapter: Adapter, events: seq<Event>, result: bool)

  const FAIL_CLOSED := Public(WaitingForHuman, [], false)

  // What the monitor holds in its local variables when it decides.
  datatype Verdict = Verdict(rejected: bool, known: bool, scanOk: bool, waitOk: bool)

  // Where the monitor is.
  datatype Monitor =
    | Reading
    | Refused                                  // a line was refused; reject comes next
    | Drained(scanOk: bool)                    // the scan is over; Wait comes next
    | Exited(scanOk: bool, waitOk: bool)       // the process is gone; the flags are read next
    | Decided(v: Verdict)                      // the flags are read; cleanup comes next
    | Cleaned(v: Verdict, cleanupOk: bool)     // publishing comes next
    | Finished(v: Verdict, cleanupOk: bool)    // published, and session.done closed

  // `owed` counts the rejections that still have to send their Terminate.
  datatype Session = Session(
    state: Public, rejected: bool, monitor: Monitor, owed: nat, terminated: nat, accepted: seq<Kind>)

  const STARTED := Session(Public(Monitoring, [], false), false, Reading, 0, 0, [])

  // --- The critical sections ---

  // acceptTranscriptEvent on a line that normalises to `kind`, or to nothing.
  predicate Accepts(s: Session, kind: Option<Kind>) {
    && kind.Some? && !s.rejected && s.state.adapter == Monitoring
    && |s.state.events| < 3 && kind.value == SCRIPT[|s.state.events|]
  }

  function Accept(s: Session, kind: Kind): Session {
    s.(state := s.state.(events := s.state.events + [Event(|s.state.events| + 1, kind)]),
      accepted := s.accepted + [kind])
  }

  // rejectWithState, up to the unlock.
  function Reject(s: Session, cancelling: bool): Session {
    var state := if cancelling && s.state.adapter != Completed then Public(CancelRequested, [], false) else s.state;
    s.(state := state, rejected := true, owed := if s.rejected then s.owed else s.owed + 1)
  }

  function ReadFlags(s: Session): Session
    requires s.monitor.Exited?
  {
    var v := Verdict(s.rejected, |s.state.events| == 3 && !s.rejected, s.monitor.scanOk, s.monitor.waitOk);
    s.(monitor := Decided(v))
  }

  predicate Good(v: Verdict, cleanupOk: bool) { !v.rejected && v.scanOk && v.waitOk && v.known && cleanupOk }

  function Publish(s: Session): Session
    requires s.monitor.Cleaned?
  {
    var v, cleanupOk := s.monitor.v, s.monitor.cleanupOk;
    s.(state := if Good(v, cleanupOk) then Public(Completed, s.state.events, true) else FAIL_CLOSED,
       monitor := Finished(v, cleanupOk))
  }

  // --- Steps ---

  datatype Step =
    | Line(kind: Option<Kind>)      // the monitor scans a line
    | RefuseLine(scanOk: bool)      // it rejects the session and leaves the loop
    | EndOfLines(scanOk: bool)
    | Exit(waitOk: bool)
    | Decide
    | Cleanup(ok: bool)
    | Announce
    | Deadline                      // the timer, or recover on a session that is not done
    | Cancel                        // cancel, or recover on a session already asked to cancel
    | Terminate                     // a rejection sends its Terminate

  function Apply(s: Session, step: Step): Session {
    match step
    case Line(kind) =>
      if !s.monitor.Reading? then s
      else if Accepts(s, kind) then Accept(s, kind.value)
      else s.(monitor := Refused)
    case RefuseLine(ok) => if s.monitor.Refused? then Reject(s, false).(monitor := Drained(ok)) else s
    case EndOfLines(ok) => if s.monitor.Reading? then s.(monitor := Drained(ok)) else s
    case Exit(ok) => if s.monitor.Drained? then s.(monitor := Exited(s.monitor.scanOk, ok)) else s
    case Decide => if s.monitor.Exited? then ReadFlags(s) else s
    case Cleanup(ok) => if s.monitor.Decided? then s.(monitor := Cleaned(s.monitor.v, ok)) else s
    case Announce => if s.monitor.Cleaned? then Publish(s) else s
    case Deadline => Reject(s, false)
    case Cancel => Reject(s, true)
    case Terminate => if s.owed > 0 then s.(owed := s.owed - 1, terminated := s.terminated + 1) else s
  }

  function Run(s: Session, steps: seq<Step>): Session
    decreases |steps|
  {
    if steps == [] then s else Run(Apply(s, steps[0]), steps[1..])
  }

  // --- Invariants ---

  function Verdicts(m: Monitor): Option<Verdict> {
    match m
    case Decided(v) => Some(v)
    case Cleaned(v, _) => Some(v)
    case Finished(v, _) => Some(v)
    case _ => None
  }

  function Numbered(kinds: seq<Kind>): seq<Event> {
    seq(|kinds|, i requires 0 <= i < |kinds| => Event(i + 1, kinds[i]))
  }

  predicate Inv(s: Session) {
    && s.accepted <= SCRIPT
    && (s.state.events == [] || s.state.events == Numbered(s.accepted))
    && (s.state.adapter == Monitoring ==> s.state.events == Numbered(s.accepted))
    && s.owed + s.terminated == (if s.rejected then 1 else 0)
    && (s.state.adapter == CancelRequested ==> s.rejected && s.state.events == [])
    && (s.monitor.Finished? || s.state.adapter == Monitoring || s.state.adapter == CancelRequested)
    && (s.state.adapter == Completed <==> s.monitor.Finished? && Good(s.monitor.v, s.monitor.cleanupOk))
    && (Verdicts(s.monitor).Some? && Verdicts(s.monitor).value.known ==> |s.accepted| == 3)
    && (s.state.result <==> s.state.adapter == Completed)
  }

  lemma AcceptKeeps(s: Session, kind: Option<Kind>)
    requires Inv(s) && Accepts(s, kind)
    ensures Inv(Accept(s, kind.value))
  {
  }

  lemma StepKeeps(s: Session, step: Step)
    requires Inv(s)
    ensures Inv(Apply(s, step))
  {
    if step.Line? && s.monitor.Reading? && Accepts(s, step.kind) {
      AcceptKeeps(s, step.kind);
    }
  }

  /** In every interleaving: the accepted events are a prefix of started, finding, completed; the session
      completes only after all three, a clean scan and exit, a cleanup that worked, and no rejection seen
      when the flags were read; and Terminate is sent at most once. */
  lemma {:induction false} EveryRunIsSafe(steps: seq<Step>)
    ensures var s := Run(STARTED, steps);
            && s.accepted <= SCRIPT
            && (s.state.events == [] || s.state.events == Numbered(s.accepted))
            && (s.state.adapter == Completed <==> s.monitor.Finished? && Good(s.monitor.v, s.monitor.cleanupOk))
            && (s.state.adapter == Completed ==> s.accepted == SCRIPT)
            && s.terminated <= 1
  {
    hide Run, Inv;
    StartedIsSafe();
    RunKeeps(STARTED, steps);
    InvMeans(Run(STARTED, steps));
  }

  lemma InvMeans(s: Session)
    requires Inv(s)
    ensures s.accepted <= SCRIPT && (s.state.events == [] || s.state.events == Numbered(s.accepted))
            && s.terminated <= 1
    ensures s.state.adapter == Completed <==> s.monitor.Finished? && Good(s.monitor.v, s.monitor.cleanupOk)
    ensures s.state.adapter == Completed ==> s.accepted == SCRIPT
  {
  }

  lemma StartedIsSafe()
    ensures Inv(STARTED)
  {
  }

  lemma {:induction false} RunKeeps(s: Session, steps: seq<Step>)
    requires Inv(s)
    ensures Inv(Run(s, steps))
    decreases |steps|
  {
    hide Apply, Inv;
    if steps != [] {
      StepKeeps(s, steps[0]);
      RunKeeps(Apply(s, steps[0]), steps[1..]);
    }
  }

  /** A completed session stays as it was published. */
  lemma {:induction false} CompletedIsFinal(s: Session, steps: seq<Step>)
    requires Inv(s) && s.state.adapter == Completed
    ensures Run(s, steps).state == s.state
    decreases |steps|
  {
    if steps != [] {
      StepKeeps(s, steps[0]);
      CompletedIsFinal(Apply(s, steps[0]), steps[1..]);
    }
  }

  // --- What keeps a session from completing ---

  predicate AllClear(v: Verdict) { !v.rejected && v.known && v.scanOk && v.waitOk }

  // A line was refused, or the session was rejected before the flags were read, or they told against it.
  predicate Doomed(s: Session) {
    match s.monitor
    case Reading => s.rejected
    case Refused => true
    case Drained(_) => s.rejected
    case Exited(_, _) => s.rejected
    case Decided(v) => !AllClear(v)
    case Cleaned(v, _) => !AllClear(v)
    case Finished(v, cleanupOk) => !AllClear(v) || !cleanupOk
  }

  lemma DoomedStays(s: Session, step: Step)
    requires Doomed(s)
    ensures Doomed(Apply(s, step))
  {
  }

  lemma {:induction false} DoomedNeverCompletes(s: Session, steps: seq<Step>)
    requires Inv(s) && Doomed(s)
    ensures Run(s, steps).state.adapter != Completed && !Run(s, steps).state.result
    decreases |steps|
  {
    hide Apply, Inv, Doomed;
    if steps == [] {
      DoomedIsNotCompleted(s);
    } else {
      DoomedStays(s, steps[0]);
      StepKeeps(s, steps[0]);
      DoomedNeverCompletes(Apply(s, steps[0]), steps[1..]);
    }
  }

  lemma DoomedIsNotCompleted(s: Session)
    requires Inv(s) && Doomed(s)
    ensures s.state.adapter != Completed && !s.state.result
  {
  }

  /** Once the monitor has refused a line, no steps of anyone lead to a completed session. */
  lemma RefusedNeverCompletes(s: Session, steps: seq<Step>)
    requires Inv(s) && s.monitor == Refused
    ensures Run(s, steps).state.adapter != Completed
  {
    hide Inv, Run;
    DoomedNeverCompletes(s, steps);
  }

  /** A deadline or a cancel that comes before the flags are read keeps the session from ever completing. */
  lemma RejectedNeverCompletes(s: Session, step: Step, steps: seq<Step>)
    requires Inv(s) && Verdicts(s.monitor).None? && (step == Deadline || step == Cancel)
    ensures Run(Apply(s, step), steps).state.adapter != Completed
  {
    hide Inv, Run;
    StepKeeps(s, step);
    DoomedNeverCompletes(Apply(s, step), steps);
  }

  /** A line is refused exactly when it does not normalise to the next event of the script, or the session has been
      rejected; and every line read is accepted or refused. */
  lemma LineRefusedIff(s: Session, kind: Option<Kind>)
    requires Inv(s) && s.monitor == Reading
    ensures var next := |s.accepted|;
            Apply(s, Line(kind)).monitor == Refused <==>
            s.rejected || kind.None? || next >= 3 || kind.value != SCRIPT[next]
    ensures Apply(s, Line(kind)).monitor != Refused ==> Apply(s, Line(kind)).accepted == s.accepted + [kind.value]
  {
  }

  /** A cancel withdraws the events of a session that has not completed, and a deadline leaves them. */
  lemma CancelWithdraws(s: Session)
    requires Inv(s)
    ensures Apply(s, Cancel).rejected && Apply(s, Deadline).rejected && Apply(s, Deadline).state == s.state
    ensures Apply(s, Cancel).state ==
            if s.state.adapter == Completed then s.state else Public(CancelRequested, [], false)
  {
  }

  // --- What is published ---

  // The monitor has read its flags, all is well so far, and nothing was published yet.
  predicate AboutToComplete(s: Session) {
    && Inv(s) && Verdicts(s.monitor).Some? && !s.monitor.Finished?
    && AllClear(Verdicts(s.monitor).value)
  }

  lemma {:induction false} EventsUntilPublished(s: Session, steps: seq<Step>)
    requires AboutToComplete(s) && !Run(s, steps).monitor.Finished?
    ensures AboutToComplete(Run(s, steps))
    ensures Run(s, steps).state.events == if Cancel in steps then [] else s.state.events
    decreases |steps|
  {
    if steps != [] {
      if Apply(s, steps[0]).monitor.Finished? {
        FinishedStays(Apply(s, steps[0]), steps[1..]);
      }
      StepKeeps(s, steps[0]);
      EventsUntilPublished(Apply(s, steps[0]), steps[1..]);
      if Cancel in steps[1..] || steps[0] == Cancel {
        assert Cancel in steps;
      } else {
        assert steps == [steps[0]] + steps[1..];
      }
    }
  }

  lemma {:induction false} FinishedStays(s: Session, steps: seq<Step>)
    requires s.monitor.Finished?
    ensures Run(s, steps).monitor.Finished?
    decreases |steps|
  {
    if steps != [] {
      FinishedStays(Apply(s, steps[0]), steps[1..]);
    }
  }

  /** The published events are the three accepted ones exactly when no cancel came between the reading of
      the flags and the publishing. */
  lemma PublishedEventsIff(s: Session, steps: seq<Step>)
    requires s.monitor.Exited? && Inv(s) && !s.rejected && |s.state.events| == 3 && s.monitor.scanOk && s.monitor.waitOk
    requires Run(ReadFlags(s), steps).monitor == Cleaned(ReadFlags(s).monitor.v, true)
    ensures var t := Publish(Run(ReadFlags(s), steps));
            t.state.adapter == Completed && (t.state.events == EXPECTED <==> Cancel !in steps)
  {
    hide Run;
    StepKeeps(s, Decide);
    assert AboutToComplete(ReadFlags(s));
    EventsUntilPublished(ReadFlags(s), steps);
    assert |s.accepted| == 3 && s.accepted == SCRIPT;
    assert Numbered(SCRIPT) == EXPECTED;
  }

  /** It does happen: a session can be published as completed with no events. */
  lemma CompletedWithoutEvents()
    ensures exists steps :: Run(STARTED, steps).state == Public(Completed, [], true)
  {
    hide Run, Apply;
    var lines := [Line(Some(AuditStarted)), Line(Some(AuditFinding)), Line(Some(AuditCompleted))];
    var ending := [EndOfLines(true), Exit(true), Decide];
    var late := [Cancel, Cleanup(true), Announce];
    ThreeLines();
    CleanEnd();
    LateCancel();
    RunAppend(STARTED, lines, ending);
    RunAppend(STARTED, lines + ending, late);
    assert Run(STARTED, lines + ending + late).state == Public(Completed, [], true);
  }

  const ALL_READ := Session(Public(Monitoring, EXPECTED, false), false, Reading, 0, 0, SCRIPT)
  const ALL_WELL := ALL_READ.(monitor := Decided(Verdict(false, true, true, true)))

  lemma Three(s: Session, x: Step, y: Step, z: Step)
    ensures Run(s, [x, y, z]) == Apply(Apply(Apply(s, x), y), z)
  {
    hide Apply;
    assert [x, y, z][1..] == [y, z] && [y, z][1..] == [z] && [z][1..] == [];
    assert Run(s, [x, y, z]) == Run(Apply(s, x), [y, z]);
    assert Run(Apply(s, x), [y, z]) == Run(Apply(Apply(s, x), y), [z]);
  }

  lemma ThreeLines()
    ensures Run(STARTED, [Line(Some(AuditStarted)), Line(Some(AuditFinding)), Line(Some(AuditCompleted))]) == ALL_READ
  {
  }

  lemma CleanEnd()
    ensures Run(ALL_READ, [EndOfLines(true), Exit(true), Decide]) == ALL_WELL
  {
  }

  lemma LateCancel()
    ensures Run(ALL_WELL, [Cancel, Cleanup(true), Announce]).state == Public(Completed, [], true)
  {
  }

  lemma {:induction false} RunAppend(s: Session, a: seq<Step>, b: seq<Step>)
    ensures Run(s, a + b) == Run(Run(s, a), b)
    decreases |a|
  {
    hide Apply;
    if a == [] {
      assert a + b == b;
    } else {
      assert (a + b)[1..] == a[1..] + b;
      RunAppend(Apply(s, a[0]), a[1..], b);
    }
  }
}
