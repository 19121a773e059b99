/** The session object and its monitor: every execution is a run of the step machine. */
module OmpRuntime {
  import opened Common
  import opened OmpSession

  // What other goroutines may do between two critical sections of the monitor.
  predicate FromOutside(step: Step) { step.Deadline? || step.Cancel? || step.Terminate? }

  predicate AllFromOutside(steps: seq<Step>) { forall x <- steps :: FromOutside(x) }

  // No deadline and no cancel.
  predicate Undisturbed(steps: seq<Step>) { Deadline !in steps && Cancel !in steps }

  const GOOD_LINES := [Some(AuditStarted), Some(AuditFinding), Some(AuditCompleted)]

  // Nothing rejects the session before its flags are read: the three lines, the end, the exit and the decision.
  ghost predicate LeftAlone(before: nat -> seq<Step>, n: nat) { forall i: nat :: i < n ==> Undisturbed(before(i)) }

  class SessionObject {
    var adapter: Adapter
    var events: seq<Event>
    var result: bool
    var rejected: bool
    var monitor: Monitor
    var owed: nat
    var terminated: nat
    var accepted: seq<Kind>

    constructor ()
      ensures Now() == STARTED
    {
      adapter, events, result, rejected, monitor := Monitoring, [], false, false, Reading;
      owed, terminated, accepted := 0, 0, [];
    }

    function Now(): Session
      reads this
    {
      Session(Public(adapter, events, result), rejected, monitor, owed, terminated, accepted)
    }

    method AcceptTranscriptEvent(kind: Option<Kind>) returns (ok: bool)
      modifies this
      ensures ok == Accepts(old(Now()), kind)
      ensures Now() == if ok then Accept(old(Now()), kind.value) else old(Now())
    {
      if kind.None? || rejected || adapter != Monitoring {
        return false;
      }
      var sequence := |events| + 1;
      if (sequence == 1 && kind.value != AuditStarted) || (sequence == 2 && kind.value != AuditFinding)
         || (sequence == 3 && kind.value != AuditCompleted) || sequence > 3
      {
        return false;
      }
      events, accepted := events + [Event(sequence, kind.value)], accepted + [kind.value];
      return true;
    }

    method RejectWithState(cancelling: bool)
      modifies this
      ensures Now() == Reject(old(Now()), cancelling)
    {
      if !rejected {
        owed := owed + 1;
      }
      rejected := true;
      if cancelling && adapter != Completed {
        adapter, events, result := CancelRequested, [], false;
      }
    }

    // One step of another goroutine.
    method Outside(step: Step)
      requires FromOutside(step)
      modifies this
      ensures Now() == Apply(old(Now()), step)
    {
      if step.Deadline? {
        RejectWithState(false);
      } else if step.Cancel? {
        RejectWithState(true);
      } else if owed > 0 {
        owed, terminated := owed - 1, terminated + 1;
      }
    }

    method Others(steps: seq<Step>)
      requires AllFromOutside(steps)
      modifies this
      ensures Now() == Run(old(Now()), steps) && monitor == old(monitor)
    {
      hide Apply;
      var i := 0;
      while i < |steps|
        invariant 0 <= i <= |steps|
        invariant Run(old(Now()), steps) == Run(Now(), steps[i..]) && monitor == old(monitor)
      {
        assert steps[i] in steps && steps[i..][1..] == steps[i + 1..];
        OutsideKeepsMonitor(Now(), steps[i]);
        Outside(steps[i]);
        i := i + 1;
      }
    }

    // monitor: reads the lines, waits, decides, cleans up and publishes. `before` says what others do
    // before each of its critical sections.
    method RunMonitor(lines: seq<Option<Kind>>, scanOk: bool, waitOk: bool, cleanupOk: bool, before: nat -> seq<Step>)
      returns (ghost trace: seq<Step>)
      requires Now() == STARTED && forall n :: AllFromOutside(before(n))
      modifies this
      ensures Now() == Run(STARTED, trace) && monitor.Finished?
      ensures accepted <= SCRIPT && terminated <= 1 && (adapter == Completed ==> accepted == SCRIPT)
      ensures adapter == Completed <==>
              lines == GOOD_LINES && scanOk && waitOk && cleanupOk && LeftAlone(before, 6)
      ensures adapter != Completed ==> Public(adapter, events, result) == FAIL_CLOSED
    {
      hide Apply, Run, AllFromOutside, Accepts, Inv, Undisturbed, LeftAlone;
      trace := [];
      NoSteps(STARTED);
      StartedIsSafe();
      NoneBefore(before);
      var i := 0;
      while i < |lines| && monitor == Reading
        invariant 0 <= i <= |lines|
        invariant Now() == Run(STARTED, trace) && (monitor == Reading || monitor == Refused) && Inv(Now())
        invariant !rejected <==> LeftAlone(before, i)
        invariant monitor == Reading ==> |accepted| == i <= 3 && lines[..i] == GOOD_LINES[..i]
        invariant monitor == Refused ==> !LeftAlone(before, i) || lines != GOOD_LINES
        decreases |lines| - i
      {
        ghost var was := Now();
        Others(before(i));
        OthersKeep(was, before(i));
        OneMoreBefore(before, i);
        LineStep(Now(), lines[i]);
        ReadsOn(Now(), lines, i);
        Extend(STARTED, trace, before(i), Line(lines[i]));
        StepKeeps(Now(), Line(lines[i]));
        var ok := AcceptTranscriptEvent(lines[i]);
        if !ok {
          monitor := Refused;
        }
        trace := trace + before(i) + [Line(lines[i])];
        i := i + 1;
      }
      ghost var whole := monitor == Reading && !rejected && |accepted| == 3;
      trace := Finish(trace, scanOk, waitOk, cleanupOk, (n: nat) => before(|lines| + n));
      EveryRunIsSafe(trace);
      WholeIff(before, lines, i, whole);
    }

    method Finish(ghost trace: seq<Step>, scanOk: bool, waitOk: bool, cleanupOk: bool, before: nat -> seq<Step>)
      returns (ghost full: seq<Step>)
      requires Now() == Run(STARTED, trace) && (monitor == Reading || monitor == Refused) && Inv(Now())
      requires forall n :: AllFromOutside(before(n))
      modifies this
      ensures Now() == Run(STARTED, full) && monitor.Finished? && monitor.cleanupOk == cleanupOk
      ensures adapter == Completed <==>
              && old(monitor) == Reading && old(|accepted|) == 3 && !old(rejected) && LeftAlone(before, 3)
              && scanOk && waitOk && cleanupOk
      ensures adapter != Completed ==> Public(adapter, events, result) == FAIL_CLOSED
    {
      hide Run, AllFromOutside, Undisturbed, Inv;
      LeftAloneThree(before);
      hide LeftAlone;
      ghost var was := Now();
      Others(before(0));
      OthersKeep(was, before(0));
      var leave := if monitor == Refused then RefuseLine(scanOk) else EndOfLines(scanOk);
      Extend(STARTED, trace, before(0), leave);
      StepKeeps(Now(), leave);
      if monitor == Refused {
        RejectWithState(false);
      }
      monitor := Drained(scanOk);
      full := trace + before(0) + [leave];

      was := Now();
      Others(before(1));
      OthersKeep(was, before(1));
      Extend(STARTED, full, before(1), Exit(waitOk));
      StepKeeps(Now(), Exit(waitOk));
      monitor := Exited(scanOk, waitOk);
      full := full + before(1) + [Exit(waitOk)];

      full := Settle(full, scanOk, waitOk, cleanupOk, before);
    }

    method Settle(ghost trace: seq<Step>, scanOk: bool, waitOk: bool, cleanupOk: bool, before: nat -> seq<Step>)
      returns (ghost full: seq<Step>)
      requires Now() == Run(STARTED, trace) && monitor == Exited(scanOk, waitOk) && Inv(Now())
      requires forall n :: AllFromOutside(before(n))
      modifies this
      ensures Now() == Run(STARTED, full) && monitor.Finished? && monitor.cleanupOk == cleanupOk
      ensures adapter == Completed <==>
              old(|accepted|) == 3 && !old(rejected) && Undisturbed(before(2)) && scanOk && waitOk && cleanupOk
      ensures adapter != Completed ==> Public(adapter, events, result) == FAIL_CLOSED
    {
      hide Run, Apply, AllFromOutside, Undisturbed, Inv;
      ghost var was := Now();
      Others(before(2));
      OthersKeep(was, before(2));
      DecidesOn(Now());
      Extend(STARTED, trace, before(2), Decide);
      var v := DecideNow(scanOk, waitOk);
      full := trace + before(2) + [Decide];

      Others(before(3));
      Extend(STARTED, full, before(3), Cleanup(cleanupOk));
      CleanupStep(Now(), cleanupOk);
      monitor := Cleaned(v, cleanupOk);
      full := full + before(3) + [Cleanup(cleanupOk)];

      Others(before(4));
      Extend(STARTED, full, before(4), Announce);
      PublishNow(v, cleanupOk);
      full := full + before(4) + [Announce];
    }

    method DecideNow(scanOk: bool, waitOk: bool) returns (v: Verdict)
      requires monitor == Exited(scanOk, waitOk)
      modifies this
      ensures Now() == Apply(old(Now()), Decide) && Now() == ReadFlags(old(Now())) && monitor == Decided(v)
    {
      var wasRejected := rejected;
      v := Verdict(wasRejected, |events| == 3 && !wasRejected, scanOk, waitOk);
      monitor := Decided(v);
    }

    method PublishNow(v: Verdict, cleanupOk: bool)
      requires monitor == Cleaned(v, cleanupOk)
      modifies this
      ensures Now() == Apply(old(Now()), Announce) && monitor == Finished(v, cleanupOk)
      ensures adapter == Completed <==> AllClear(v) && cleanupOk
      ensures adapter != Completed ==> Public(adapter, events, result) == FAIL_CLOSED
    {
      if v.rejected || !v.scanOk || !v.waitOk || !v.known || !cleanupOk {
        adapter, events, result := WaitingForHuman, [], false;
      } else {
        adapter, result := Completed, true;
      }
      monitor := Finished(v, cleanupOk);
    }
  }

  // The others can only reject the session, and leave it as it was unless they do.
  lemma {:induction false} OthersKeep(s: Session, steps: seq<Step>)
    requires AllFromOutside(steps) && Inv(s)
    ensures var r := Run(s, steps);
            && Inv(r) && r.monitor == s.monitor && r.accepted == s.accepted
            && (!r.rejected <==> !s.rejected && Undisturbed(steps))
    decreases |steps|
  {
    hide Inv;
    if steps != [] {
      assert steps[0] in steps && forall x <- steps[1..] :: x in steps;
      StepKeeps(s, steps[0]);
      OthersKeep(Apply(s, steps[0]), steps[1..]);
      assert steps == [steps[0]] + steps[1..];
    }
  }

  lemma DecidesOn(s: Session)
    requires Inv(s) && s.monitor.Exited?
    ensures AllClear(ReadFlags(s).monitor.v) <==>
            !s.rejected && |s.accepted| == 3 && s.monitor.scanOk && s.monitor.waitOk
  {
  }

  // Which lines are read on.
  lemma ReadsOn(s: Session, lines: seq<Option<Kind>>, i: nat)
    requires Inv(s) && s.monitor == Reading && i < |lines| && |s.accepted| == i <= 3 && lines[..i] == GOOD_LINES[..i]
    ensures Accepts(s, lines[i]) ==> !s.rejected && i < 3 && lines[..i + 1] == GOOD_LINES[..i + 1]
    ensures !Accepts(s, lines[i]) ==> s.rejected || lines != GOOD_LINES
  {
    LineRefusedIff(s, lines[i]);
    assert Accepts(s, lines[i]) ==> lines[..i + 1] == lines[..i] + [lines[i]];
    assert i < 3 ==> GOOD_LINES[..i + 1] == GOOD_LINES[..i] + [GOOD_LINES[i]] && GOOD_LINES[i] == Some(SCRIPT[i]);
  }

  lemma NoneBefore(before: nat -> seq<Step>)
    ensures LeftAlone(before, 0)
  {
  }

  lemma OneMoreBefore(before: nat -> seq<Step>, i: nat)
    ensures LeftAlone(before, i + 1) <==> LeftAlone(before, i) && Undisturbed(before(i))
  {
    hide Undisturbed;
  }

  lemma LeftAloneThree(before: nat -> seq<Step>)
    ensures LeftAlone(before, 3) <==> Undisturbed(before(0)) && Undisturbed(before(1)) && Undisturbed(before(2))
  {
    hide Undisturbed;
  }

  // The lines were the three expected ones and the session was left alone while they were read.
  lemma WholeIff(before: nat -> seq<Step>, lines: seq<Option<Kind>>, i: nat, whole: bool)
    requires i <= |lines|
    requires whole ==> i == |lines| == 3 && lines[..i] == GOOD_LINES[..i] && LeftAlone(before, i)
    requires !whole ==> !LeftAlone(before, i) || lines != GOOD_LINES
    ensures whole && LeftAlone((n: nat) => before(|lines| + n), 3) <==> lines == GOOD_LINES && LeftAlone(before, 6)
  {
    hide Undisturbed;
    var rest := (n: nat) => before(|lines| + n);
    if whole {
      assert lines[..3] == lines && GOOD_LINES[..3] == GOOD_LINES;
      if LeftAlone(rest, 3) {
        forall k: nat | k < 6 ensures Undisturbed(before(k)) {
          assert k >= 3 ==> rest(k - 3) == before(k);
        }
      }
      if LeftAlone(before, 6) {
        forall k: nat | k < 3 ensures Undisturbed(rest(k)) {
          assert rest(k) == before(3 + k);
        }
      }
    }
  }

  lemma CleanupStep(s: Session, ok: bool)
    requires s.monitor.Decided?
    ensures Apply(s, Cleanup(ok)) == s.(monitor := Cleaned(s.monitor.v, ok))
  {
  }

  lemma OutsideKeepsMonitor(s: Session, step: Step)
    requires FromOutside(step)
    ensures Apply(s, step).monitor == s.monitor
  {
  }

  lemma LineStep(s: Session, kind: Option<Kind>)
    requires s.monitor == Reading
    ensures Apply(s, Line(kind)) == if Accepts(s, kind) then Accept(s, kind.value) else s.(monitor := Refused)
  {
  }

  lemma NoSteps(s: Session)
    ensures Run(s, []) == s
  {
  }

  // What the others did and one step more, after a trace.
  lemma Extend(s: Session, trace: seq<Step>, steps: seq<Step>, x: Step)
    ensures Run(s, trace + steps + [x]) == Apply(Run(Run(s, trace), steps), x)
  {
    hide Apply;
    RunAppend(s, trace, steps);
    RunAppend(s, trace + steps, [x]);
    assert [x][1..] == [];
  }
}
