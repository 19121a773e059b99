/**
 The engine's goroutines, its wait group, Close, and cleanup delivery. Every step is one section
 under the engine's lock, or one event a goroutine goes through; a step that is not enabled
 changes nothing.
 */
module Shutdown {

  type RunId = string
  type Id = nat

  // A goroutine that holds one unit of the wait group.
  datatype Goroutine =
    | RunCall(listening: bool)
    | RecoveryLoop
    | AcceptLoop
    | Connection
    | Delivering(run: RunId)
    | Delivered
    | RepairJob

  datatype Pool = Pool(counted: map<Id, Goroutine>, wg: nat, started: nat, running: bool)

  // How far the first caller of Close has come.
  datatype Phase = Open | Waiting(closer: Id) | Joined(closer: Id) | StoreClosed(closer: Id, error: bool) | Closed

  datatype Closing = Closing(phase: Phase, closeErr: bool, storeCloses: nat, waiters: set<Id>, returned: map<Id, bool>)

  datatype Cleanup = Cleanup(requested: set<RunId>, confirmed: set<RunId>, sent: multiset<RunId>)

  datatype Engine = Engine(pool: Pool, closing: Closing, cleanup: Cleanup)

  const NEW := Engine(
    Pool(map[], 0, 0, false), Closing(Open, false, 0, {}, map[]), Cleanup({}, {}, multiset{}))

  predicate IsClosing(c: Closing) { !c.phase.Open? }

  // Each call of Close has its own id; this one started the shutdown and has not returned.
  predicate IsFirstCloser(c: Closing, k: Id) {
    (c.phase.Waiting? || c.phase.Joined? || c.phase.StoreClosed?) && c.phase.closer == k
  }

  // --- Goroutines ---

  datatype WorkStep =
    | EnterRun(g: Id)
    | Listen(g: Id, recovery: Id, accept: Id)
    | Accept(g: Id, connection: Id)
    | StartRepair(g: Id, job: Id)
    | Finish(g: Id)

  // wg.Add(1), then the goroutine.
  function Start(p: Pool, g: Id, k: Goroutine): Pool {
    if g in p.counted then p else p.(counted := p.counted[g := k], wg := p.wg + 1, started := p.started + 1)
  }

  function Work(p: Pool, closing: bool, s: WorkStep): Pool {
    match s
    case EnterRun(g) =>
      if closing || p.running || g in p.counted then p else Start(p, g, RunCall(false)).(running := true)
    case Listen(g, r, a) =>
      if closing || g !in p.counted || p.counted[g] != RunCall(false) then p
      else if r in p.counted || a in p.counted || r == a then p
      else
        var p1 := p.(counted := p.counted[g := RunCall(true)]);
        Start(Start(p1, r, RecoveryLoop), a, AcceptLoop)
    case Accept(g, c) =>
      if closing || g !in p.counted || !p.counted[g].AcceptLoop? then p else Start(p, c, Connection)
    // A repair request does not look at `closing`; it is served by a counted connection.
    case StartRepair(g, j) =>
      if g !in p.counted || !p.counted[g].Connection? then p else Start(p, j, RepairJob)
    case Finish(g) =>
      if g !in p.counted || p.counted[g].Delivering? || p.wg == 0 then p
      else p.(counted := p.counted - {g}, wg := p.wg - 1, running := p.running && !p.counted[g].RunCall?)
  }

  // --- Cleanup delivery ---

  datatype DeliveryStep =
    | RequestCleanup(run: RunId, ready: bool, delivery: Id)
    | Reply(g: Id, ok: bool)

  function Deliver(p: Pool, closing: bool, c: Cleanup, s: DeliveryStep): (Pool, Cleanup) {
    match s
    case RequestCleanup(run, ready, d) =>
      if !ready || closing || run in c.requested || d in p.counted then (p, c)
      else
        (Start(p, d, Delivering(run)), c.(requested := c.requested + {run}, sent := c.sent + multiset{run}))
    case Reply(g, ok) =>
      if g !in p.counted || !p.counted[g].Delivering? then (p, c)
      else
        var run := p.counted[g].run;
        (p.(counted := p.counted[g := Delivered]),
         if ok then c.(confirmed := c.confirmed + {run}) else c.(requested := c.requested - {run}))
  }

  // --- Close ---

  datatype CloseStep =
    | EnterClose(closer: Id)
    | WaitReturns
    | CloseStore(error: bool)
    | EndClose
    | WaiterReturns(closer: Id)

  function Close(c: Closing, wg: nat, s: CloseStep): Closing {
    match s
    case EnterClose(k) =>
      if k in c.returned || k in c.waiters || IsFirstCloser(c, k) then c
      else if c.phase.Closed? then c.(returned := c.returned[k := c.closeErr])
      else if IsClosing(c) then c.(waiters := c.waiters + {k})
      else c.(phase := Waiting(k))
    case WaitReturns => if c.phase.Waiting? && wg == 0 then c.(phase := Joined(c.phase.closer)) else c
    case CloseStore(error) =>
      if c.phase.Joined? then c.(phase := StoreClosed(c.phase.closer, error), storeCloses := c.storeCloses + 1) else c
    case EndClose =>
      if c.phase.StoreClosed?
      then c.(phase := Closed, closeErr := c.phase.error, returned := c.returned[c.phase.closer := c.phase.error])
      else c
    case WaiterReturns(k) =>
      if k in c.waiters && c.phase.Closed?
      then c.(returned := c.returned[k := c.closeErr], waiters := c.waiters - {k})
      else c
  }

  datatype Step = WorkOf(w: WorkStep) | DeliveryOf(d: DeliveryStep) | CloseOf(c: CloseStep)

  function Apply(e: Engine, s: Step): Engine {
    match s
    case WorkOf(w) => e.(pool := Work(e.pool, IsClosing(e.closing), w))
    case DeliveryOf(d) =>
      var (p, c) := Deliver(e.pool, IsClosing(e.closing), e.cleanup, d);
      e.(pool := p, cleanup := c)
    case CloseOf(c) => e.(closing := Close(e.closing, e.pool.wg, c))
  }

  function ApplyAll(e: Engine, steps: seq<Step>): Engine
    decreases steps
  {
    if steps == [] then e else ApplyAll(Apply(e, steps[0]), steps[1..])
  }

  // --- Close joins everything ---

  predicate PastWait(c: Closing) { c.phase.Joined? || c.phase.StoreClosed? || c.phase.Closed? }

  ghost predicate NoneAlive(p: Pool) { forall g :: g !in p.counted }

  ghost predicate ResultsAgree(c: Closing) {
    && c.storeCloses == (if c.phase.StoreClosed? || c.phase.Closed? then 1 else 0)
    && (forall k :: k in c.returned ==> c.phase.Closed? && c.returned[k] == c.closeErr)
  }

  ghost predicate CloseInv(e: Engine) {
    && e.pool.wg == |e.pool.counted|
    && (PastWait(e.closing) ==> NoneAlive(e.pool))
    && ResultsAgree(e.closing)
  }

  lemma WorkCounts(p: Pool, closing: bool, s: WorkStep)
    requires p.wg == |p.counted|
    ensures Work(p, closing, s).wg == |Work(p, closing, s).counted|
  {
  }

  lemma DeliverCounts(p: Pool, closing: bool, c: Cleanup, s: DeliveryStep)
    requires p.wg == |p.counted|
    ensures Deliver(p, closing, c, s).0.wg == |Deliver(p, closing, c, s).0.counted|
  {
  }

  // With nobody alive and `closing` set, no goroutine can start.
  lemma NobodyStarts(p: Pool, c: Cleanup, s: WorkStep, d: DeliveryStep)
    requires NoneAlive(p)
    ensures Work(p, true, s) == p && Deliver(p, true, c, d) == (p, c)
  {
  }

  lemma CloseStepKeeps(e: Engine, s: Step)
    requires CloseInv(e)
    ensures CloseInv(Apply(e, s))
    ensures PastWait(e.closing) ==> PastWait(Apply(e, s).closing) && Apply(e, s).pool == e.pool
  {
    match s
    case WorkOf(w) =>
      hide Work;
      WorkCounts(e.pool, IsClosing(e.closing), w);
      if PastWait(e.closing) {
        NobodyStarts(e.pool, e.cleanup, w, Reply(0, true));
      }
    case DeliveryOf(d) =>
      hide Deliver;
      DeliverCounts(e.pool, IsClosing(e.closing), e.cleanup, d);
      if PastWait(e.closing) {
        NobodyStarts(e.pool, e.cleanup, Finish(0), d);
      }
    case CloseOf(c) =>
      if e.pool.wg == 0 {
        assert e.pool.counted.Keys == {};
      }
  }

  /** Over every interleaving: the wait group counts exactly the live counted goroutines; once the
      wait in Close has returned, none is alive and none ever starts again; the store is closed at
      most once; and all callers of Close that return get the same result. */
  lemma {:induction false} CloseJoinsEverything(e: Engine, before: seq<Step>, after: seq<Step>)
    requires CloseInv(e)
    ensures var m := ApplyAll(e, before); var q := ApplyAll(m, after);
            && CloseInv(m) && CloseInv(q)
            && (PastWait(m.closing) ==> PastWait(q.closing) && NoneAlive(q.pool) && q.pool.started == m.pool.started)
            && (forall a, b :: a in q.closing.returned && b in q.closing.returned ==>
               q.closing.returned[a] == q.closing.returned[b])
            && q.closing.storeCloses <= 1
    decreases before, after
  {
    hide Apply, IsClosing;
    if before != [] {
      CloseStepKeeps(e, before[0]);
      CloseJoinsEverything(Apply(e, before[0]), before[1..], after);
    } else if after != [] {
      CloseStepKeeps(e, after[0]);
      CloseJoinsEverything(Apply(e, after[0]), [], after[1..]);
    }
  }

  // --- One cleanup delivery per run ---

  predicate InFlight(p: Pool, g: Id, run: RunId) { g in p.counted && p.counted[g] == Delivering(run) }

  ghost predicate DeliveryInv(p: Pool, c: Cleanup) {
    && (forall g, h, run :: InFlight(p, g, run) && InFlight(p, h, run) ==> g == h)
    && (forall g, run :: InFlight(p, g, run) ==> run in c.requested && run !in c.confirmed)
    && c.confirmed <= c.requested
  }

  lemma WorkKeepsDeliveries(p: Pool, closing: bool, s: WorkStep, c: Cleanup)
    requires DeliveryInv(p, c)
    ensures DeliveryInv(Work(p, closing, s), c)
  {
    assert forall g, run :: InFlight(Work(p, closing, s), g, run) ==> InFlight(p, g, run);
    hide Work;
  }

  lemma DeliverKeeps(p: Pool, closing: bool, c: Cleanup, s: DeliveryStep)
    requires DeliveryInv(p, c)
    ensures var (q, d) := Deliver(p, closing, c, s);
            && DeliveryInv(q, d) && c.confirmed <= d.confirmed
            && (forall run :: run in c.confirmed ==> d.sent[run] == c.sent[run])
  {
    var (q, d) := Deliver(p, closing, c, s);
    if s.Reply? && s.g in p.counted && p.counted[s.g].Delivering? {
      assert InFlight(p, s.g, p.counted[s.g].run);
      assert forall g, run :: InFlight(q, g, run) ==> InFlight(p, g, run) && g != s.g;
    } else if s.RequestCleanup? {
      assert forall g, run :: InFlight(q, g, run) ==> InFlight(p, g, run) || (s.run == run && s.delivery == g);
    }
  }

  /** Over every interleaving of ticks, recovery, API cancels and replies: each run has at most one
      cleanup delivery in flight, and after one OK reply none is ever sent again for it. */
  lemma {:induction false} OneCleanupDelivery(e: Engine, steps: seq<Step>)
    requires DeliveryInv(e.pool, e.cleanup)
    ensures var q := ApplyAll(e, steps);
            && DeliveryInv(q.pool, q.cleanup)
            && e.cleanup.confirmed <= q.cleanup.confirmed
            && (forall run :: run in e.cleanup.confirmed ==> q.cleanup.sent[run] == e.cleanup.sent[run])
    decreases steps
  {
    if steps != [] {
      hide DeliveryInv, Work, Deliver, Close;
      match steps[0] {
        case WorkOf(w) => WorkKeepsDeliveries(e.pool, IsClosing(e.closing), w, e.cleanup);
        case DeliveryOf(d) => DeliverKeeps(e.pool, IsClosing(e.closing), e.cleanup, d);
        case CloseOf(_) =>
      }
      OneCleanupDelivery(Apply(e, steps[0]), steps[1..]);
    }
  }

  /** A delivery that failed can be sent again at once, exactly when the engine is not closing. */
  lemma FailedDeliveryMayBeRetried(e: Engine, g: Id, run: RunId, retry: Id)
    requires DeliveryInv(e.pool, e.cleanup) && InFlight(e.pool, g, run) && retry !in e.pool.counted
    ensures var q := ApplyAll(e, [DeliveryOf(Reply(g, false)), DeliveryOf(RequestCleanup(run, true, retry))]);
            InFlight(q.pool, retry, run) <==> !IsClosing(e.closing)
  {
    var steps := [DeliveryOf(Reply(g, false)), DeliveryOf(RequestCleanup(run, true, retry))];
    assert steps[1..] == [steps[1]];
    var e1 := Apply(e, steps[0]);
    assert steps[1..][1..] == [];
    assert ApplyAll(e1, steps[1..]) == ApplyAll(Apply(e1, steps[1]), []);
  }

  lemma NewEngineIsFine()
    ensures CloseInv(NEW) && DeliveryInv(NEW.pool, NEW.cleanup)
  {
  }
}
