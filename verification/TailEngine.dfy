/**
 The daemon's own code, step by step: each method changes the fields the source changes and is
 proved to do what the function of the same name says.
 */
module TailEngine {
  import opened Common
  import opened RunStore
  import opened TranscriptRecords
  import opened TranscriptTail
  import opened TranscriptHandoff
  import R = Recovery
  import P = Processes

  class Engine {
    const unmarshal: Unmarshal
    var table: P.Table
    var file: seq<byte>
    var run: Run
    var tail: Option<Tail>

    ghost function Now(): World
      reads this
    {
      World(table, file, run, tail)
    }

    constructor (u: Unmarshal, w: World)
      ensures Now() == w && unmarshal == u
    {
      unmarshal, table, file, run, tail := u, w.table, w.file, w.run, w.tail;
    }

    // Other actors run between two of the daemon's operations.
    method Yield(steps: seq<EnvStep>)
      modifies this
      ensures Now() == Disturb(old(Now()), steps)
    {
      var i := 0;
      while i < |steps|
        invariant 0 <= i <= |steps|
        invariant Disturb(Now(), steps[i..]) == Disturb(old(Now()), steps)
      {
        match steps[i] {
          case ProcessStep(step) =>
            table := P.Apply(table, step);
          case Write(who, bytes) =>
            if MayWrite(table, who) {
              file := file + bytes;
            }
          case StoreCall(c) =>
            if ByOthers(c) {
              var r := Apply(run, c);
              if r.Some? {
                run := r.value;
              }
            }
        }
        i := i + 1;
      }
    }

    // bufio.Reader.ReadBytes('\n'), broken off where the read fails.
    method ReadBytes(read: ReadResult) returns (line: seq<byte>)
      requires IsOpen(Now())
      modifies this`tail
      ensures var n := LineLength(file, old(tail.value.pos), read);
              && line == file[old(tail.value.pos)..old(tail.value.pos) + n]
              && tail == Some(old(tail.value).(pos := old(tail.value.pos) + n))
    {
      hide RecordLength;
      var start := tail.value.pos;
      var end := start;
      while end < |file| && file[end] != LINE_FEED && !(read.Broken? && end - start == read.after)
        invariant start <= end <= |file|
        invariant forall k :: start <= k < end ==> file[k] != LINE_FEED
        invariant read.Broken? ==> end - start <= read.after
      {
        end := end + 1;
      }
      if read.ToNewlineOrEnd? && end < |file| {
        end := end + 1;
      }
      line := file[start..end];
      tail := Some(tail.value.(pos := end));
    }

    method RetryLine()
      requires IsOpen(Now())
      modifies this`tail
      ensures Now() == Rewind(old(Now()))
    {
      tail := Some(tail.value.(pos := tail.value.offset));
    }

    method AdvanceTo(end: nat, before: seq<EnvStep>, ok: bool) returns (more: bool)
      requires IsOpen(Now()) && end <= tail.value.pos
      modifies this
      ensures (Now(), more) == Advance(old(Now()), end, before, ok)
    {
      Yield(before);
      var stored := AdvanceConsumed(run, end);
      if !ok || stored.None? {
        RetryLine();
        return false;
      }
      run := stored.value;
      tail := Some(tail.value.(offset := end));
      return true;
    }

    // A complete record: append it, count it, or declare the corruption and count it.
    method AccountRecord(line: seq<byte>, end: nat, atEnd: bool, t: Turn) returns (more: bool)
      requires IsOpen(Now()) && end <= tail.value.pos
      modifies this
      ensures (Now(), more) == StoreRecord(unmarshal, old(Now()), line, end, atEnd, t)
    {
      match Classify(unmarshal, line) {
        case Blank =>
          more := AdvanceTo(end, t.beforeStore, t.storeOk);
        case Good(kind, payload) =>
          Yield(t.beforeStore);
          var stored := AppendEvent(run, kind, payload, end);
          if !t.storeOk || stored.None? {
            RetryLine();
            return false;
          }
          run := stored.value;
          tail := Some(tail.value.(offset := end));
          return !atEnd;
        case Malformed =>
          Yield(t.beforeStore);
          if !t.storeOk {
            RetryLine();
            return false;
          }
          if IsTerminal(run.state) {
            tail := Some(tail.value.(offset := end));
            return true;
          }
          if !run.state.CleanupRequired? {
            var allowed := CanTransition(run.state, CleanupRequired);
            if allowed {
              Yield(t.beforeTransition);
            }
            var moved := Transition(run, CleanupRequired);
            if !allowed || !t.transitionOk || moved.None? {
              RetryLine();
              return false;
            }
            run := moved.value;
          }
          more := AdvanceTo(end, t.beforeAdvance, t.advanceOk);
      }
    }

    method ReadOnce(t: Turn) returns (more: bool)
      requires IsOpen(Now())
      modifies this
      ensures (Now(), more) == ReadTurn(unmarshal, old(Now()), t)
    {
      hide StoreRecord, Disturb, LineLength, Rewind;
      Yield(t.beforeRead);
      var line := ReadBytes(t.read);
      if line == [] {
        return false;
      }
      var end := tail.value.offset + |line|;
      var newline := line[|line| - 1] == LINE_FEED;
      if !newline {
        if t.read.Broken? {
          RetryLine();
          return false;
        }
        Yield(t.beforeProgress);
        if !t.progressOk || run.finalSize < 0 || end != run.finalSize {
          RetryLine();
          return false;
        }
      }
      more := AccountRecord(line, end, !newline, t);
    }

    method OpenTail(offset: nat, o: Opening)
      requires TailInFile(Now())
      modifies this
      ensures Now() == StartTailing(old(Now()), offset, o)
    {
      if !o.runOk || IsTerminal(run.state) {
        return;
      }
      if !o.fileOk {
        if !o.prelaunch {
          Mark(o.markOk);
        }
        return;
      }
      if offset > |file| {
        Mark(o.markOk);
        return;
      }
      if o.seekOk && tail.None? {
        tail := Some(Tail(offset, offset));
      }
    }

    method Mark(ok: bool)
      modifies this`run
      ensures Now() == MarkAuthorityFailure(old(Now()), ok)
    {
      var moved := Transition(run, CleanupRequired);
      if ok && moved.Some? {
        run := moved.value;
      }
    }

    method TailPass(p: Pass)
      requires TailInFile(Now())
      modifies this
      ensures Now() == TailTranscript(unmarshal, old(Now()), p)
    {
      if tail.None? {
        OpenTail(0, p.opening);
        if tail.None? {
          return;
        }
      }
      Yield(p.before);
      if !p.runOk || IsTerminal(run.state) {
        return;
      }
      if |file| < Max(tail.value.offset, run.consumed) {
        Mark(p.markOk);
        return;
      }
      ReadAll(p.turns);
    }

    method ReadAll(turns: seq<Turn>)
      requires IsOpen(Now())
      modifies this
      ensures Now() == ReadLoop(unmarshal, old(Now()), turns)
    {
      var i := 0;
      var more := true;
      while more && i < |turns|
        invariant 0 <= i <= |turns| && IsOpen(Now())
        invariant ReadLoop(unmarshal, old(Now()), turns) ==
                  if more then ReadLoop(unmarshal, Now(), turns[i..]) else Now()
      {
        more := ReadOnce(turns[i]);
        i := i + 1;
      }
    }

    method HandOff(h: Handoff) returns (verdict: Verdict)
      requires TailInFile(Now())
      modifies this
      ensures (Now(), verdict) == ProgressHandoff(unmarshal, old(Now()), h)
    {
      if !run.required {
        return Complete;
      }
      if !run.identityValid || !h.loadOk || !h.statOk {
        return HandoffError;
      }
      var size := |file|;
      if run.consumed > size {
        return HandoffError;
      }
      Yield(h.beforeSeal);
      var seal := SealTranscript(run, size);
      if !h.sealOk || seal.None? {
        return HandoffError;
      }
      run := seal.value;
      verdict := Drain(size, h);
    }

    method Drain(size: nat, h: Handoff) returns (verdict: Verdict)
      requires TailInFile(Now())
      modifies this
      ensures (Now(), verdict) == DrainSealed(unmarshal, old(Now()), size, h)
    {
      Yield(h.beforeReload);
      if !h.reloadOk || run.finalSize != size || run.consumed > size {
        return HandoffError;
      }
      var consumed := run.consumed;
      Yield(h.beforeBind);
      if !h.bindOk || |file| != size {
        return HandoffError;
      }
      if tail.None? || tail.value.offset != consumed {
        tail := Some(Tail(consumed, consumed));
      }
      if consumed < size {
        TailPass(h.pass);
      }
      Yield(h.beforeLast);
      if !h.lastOk || tail.None? || |file| != size {
        return HandoffError;
      }
      return if run.finalSize == size && run.consumed == size then Complete else Incomplete;
    }

    method Observe(a: R.Attempt) returns (quiescent: bool)
      modifies this
      ensures (Now(), quiescent) == R.ObserveQuiescence(old(Now()), a)
    {
      Yield(a.beforeSupervisor);
      if !P.SeenDead(table) {
        return false;
      }
      Yield(a.beforeWorker);
      if P.ProcessAlive(table, a.workerPid) {
        return false;
      }
      Yield(a.beforeGroup);
      var members := P.GroupMembers(table);
      if !a.groupOk {
        return false;
      }
      if members == {} {
        return true;
      }
      if a.route.FromCleanup? {
        return false;
      }
      Yield(a.beforeRecheck);
      return table.tracked && table.exitNotified && forall m <- members :: m == table.supervisorPid;
    }

    // progressRecoveryUnknown with a dead supervisor, and progressCleanupRequired.
    method PublishTerminal(a: R.Attempt) returns (committed: bool)
      requires TailInFile(Now())
      modifies this
      ensures (Now(), committed) == R.Publish(unmarshal, old(Now()), a)
    {
      var quiescent := Observe(a);
      if !quiescent {
        return false;
      }
      var verdict := HandOff(a.handoff);
      if !verdict.Complete? {
        return false;
      }
      Yield(a.beforeCommit);
      var commit := CommitTerminal(run, Failed);
      if !a.commitOk || commit.None? {
        return false;
      }
      run := commit.value;
      tail := None;
      return true;
    }
  }
}
