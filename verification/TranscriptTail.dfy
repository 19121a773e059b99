/**
 One daemon tailing one run's transcript: the file, the durable row, the processes that may
 write, and the daemon's open tail. Everything other actors do between two of the daemon's
 own operations is an arbitrary list of environment steps.
 */
module TranscriptTail {
  import opened Common
  import opened RunStore
  import opened TranscriptRecords
  import P = Processes

  // `pos` is where the buffered reader stands, `offset` the end of the last record accounted for.
  datatype Tail = Tail(offset: nat, pos: nat)

  datatype World = World(table: P.Table, file: seq<byte>, run: Run, tail: Option<Tail>)

  predicate IsOpen(w: World) {
    w.tail.Some? && w.tail.value.offset <= w.tail.value.pos <= |w.file|
  }

  datatype EnvStep =
    | ProcessStep(step: P.Step)
    | Write(writer: P.Instance, bytes: seq<byte>)
    | StoreCall(call: Call)

  // Leaving the group takes no descriptor away.
  predicate MayWrite(t: P.Table, i: P.Instance) {
    P.Live(t, i) && (t.procs[i].kin || i == t.supervisor)
  }

  // Only the tailing daemon appends events or advances the consumed offset. A no-process failure is made by
  // the launch, between the daemon's operations.
  predicate ByOthers(c: Call) { !c.AppendCall? && !c.AdvanceCall? && !c.NoProcessCall? }

  function Disturb1(w: World, s: EnvStep): (w': World)
    ensures w.file <= w'.file && w'.tail == w.tail
  {
    match s
    case ProcessStep(step) => w.(table := P.Apply(w.table, step))
    case Write(i, bytes) => if MayWrite(w.table, i) then w.(file := w.file + bytes) else w
    case StoreCall(c) =>
      if !ByOthers(c) then w
      else match Apply(w.run, c) case Some(r) => w.(run := r) case None => w
  }

  function Disturb(w: World, steps: seq<EnvStep>): (w': World)
    ensures w.file <= w'.file && w'.tail == w.tail
    decreases steps
  {
    if steps == [] then w else Disturb(Disturb1(w, steps[0]), steps[1..])
  }

  // --- One pass of the tail ---

  datatype ReadResult = ToNewlineOrEnd | Broken(after: nat)

  // Everything one turn of the read loop meets: what others do before each of the daemon's own
  // operations, whether the read breaks, and whether each store call goes through.
  datatype Turn = Turn(
    beforeRead: seq<EnvStep>, read: ReadResult,
    beforeProgress: seq<EnvStep>, progressOk: bool,
    beforeStore: seq<EnvStep>, storeOk: bool,
    beforeTransition: seq<EnvStep>, transitionOk: bool,
    beforeAdvance: seq<EnvStep>, advanceOk: bool)

  const QUIET := Turn([], ToNewlineOrEnd, [], true, [], true, [], true, [], true)

  function LineLength(data: seq<byte>, p: nat, read: ReadResult): (n: nat)
    requires p <= |data|
    ensures p + n <= |data|
  {
    var n := RecordLength(data, p);
    match read
    case ToNewlineOrEnd => n
    case Broken(after) =>
      var whole := if n > 0 && data[p + n - 1] == LINE_FEED then n - 1 else n;
      if after < whole then after else whole
  }

  // Seek back to the accounted offset and drop the reader's buffer.
  function Rewind(w: World): (w': World)
    requires IsOpen(w)
    ensures IsOpen(w')
  {
    w.(tail := Some(w.tail.value.(pos := w.tail.value.offset)))
  }

  function Accounted(w: World, r: Run, end: nat): (w': World)
    requires IsOpen(w) && end <= w.tail.value.pos
    ensures IsOpen(w')
  {
    w.(run := r, tail := Some(w.tail.value.(offset := end)))
  }

  // The record is complete; `atEnd` says the reader also met the end of the file.
  function StoreRecord(u: Unmarshal, w: World, line: seq<byte>, end: nat, atEnd: bool, t: Turn): (r: (World, bool))
    requires IsOpen(w) && end <= w.tail.value.pos
    ensures IsOpen(r.0)
  {
    match Classify(u, line)
    case Blank =>
      Advance(w, end, t.beforeStore, t.storeOk)
    case Good(kind, payload) =>
      var w1 := Disturb(w, t.beforeStore);
      var stored := AppendEvent(w1.run, kind, payload, end);
      if t.storeOk && stored.Some? then (Accounted(w1, stored.value, end), !atEnd) else (Rewind(w1), false)
    case Malformed =>
      var w1 := Disturb(w, t.beforeStore);
      if !t.storeOk then (Rewind(w1), false)
      else if IsTerminal(w1.run.state) then (Accounted(w1, w1.run, end), true)
      else if w1.run.state.CleanupRequired? then Advance(w1, end, t.beforeAdvance, t.advanceOk)
      else if !CanTransition(w1.run.state, CleanupRequired) then (Rewind(w1), false)
      else
        var w2 := Disturb(w1, t.beforeTransition);
        var moved := Transition(w2.run, CleanupRequired);
        if !t.transitionOk || moved.None? then (Rewind(w2), false)
        else Advance(w2.(run := moved.value), end, t.beforeAdvance, t.advanceOk)
  }

  function Advance(w: World, end: nat, before: seq<EnvStep>, ok: bool): (r: (World, bool))
    requires IsOpen(w) && end <= w.tail.value.pos
    ensures IsOpen(r.0)
  {
    var w1 := Disturb(w, before);
    var stored := AdvanceConsumed(w1.run, end);
    if ok && stored.Some? then (Accounted(w1, stored.value, end), true) else (Rewind(w1), false)
  }

  // ReadBytes('\n'): the reader moves to the end of what it returns.
  function ReadLine(w: World, t: Turn): (w': World)
    requires IsOpen(w)
    ensures IsOpen(w') && w.tail.value.pos <= w'.tail.value.pos && w'.tail.value.offset == w.tail.value.offset
    ensures w.file <= w'.file
  {
    var w0 := Disturb(w, t.beforeRead);
    var tail := w.tail.value;
    w0.(tail := Some(tail.(pos := tail.pos + LineLength(w0.file, tail.pos, t.read))))
  }

  // The rest of the turn, once the reader has returned the bytes from `start`.
  function TakeLine(u: Unmarshal, w: World, start: nat, t: Turn): (r: (World, bool))
    requires IsOpen(w) && w.tail.value.offset <= start <= w.tail.value.pos
    ensures IsOpen(r.0)
  {
    var line := w.file[start..w.tail.value.pos];
    var end := w.tail.value.offset + |line|;
    if line == [] then (w, false)
    else if line[|line| - 1] == LINE_FEED then StoreRecord(u, w, line, end, false, t)
    else if t.read.Broken? then (Rewind(w), false)
    else
      var w1 := Disturb(w, t.beforeProgress);
      if t.progressOk && w1.run.finalSize >= 0 && end == w1.run.finalSize
      then StoreRecord(u, w1, line, end, true, t)
      else (Rewind(w1), false)
  }

  // One turn of the read loop, and whether the loop goes on.
  function ReadTurn(u: Unmarshal, w: World, t: Turn): (r: (World, bool))
    requires IsOpen(w)
    ensures IsOpen(r.0)
  {
    TakeLine(u, ReadLine(w, t), w.tail.value.pos, t)
  }

  // The turns run out when the daemon is killed in the middle of the pass.
  function ReadLoop(u: Unmarshal, w: World, turns: seq<Turn>): (w': World)
    requires IsOpen(w)
    ensures IsOpen(w')
    decreases turns
  {
    if turns == [] then w
    else
      var (next, more) := ReadTurn(u, w, turns[0]);
      if more then ReadLoop(u, next, turns[1..]) else next
  }
}
