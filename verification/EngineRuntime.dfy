/** The engine's locked sections on its own fields, each one step of the shutdown machine. */
module EngineRuntime {
  import opened Shutdown

  datatype CloseRole = First | Later | Done(error: bool)

  class Runtime {
    var counted: map<Id, Goroutine>
    var wg: nat
    var started: nat
    var running: bool
    var phase: Phase
    var closeErr: bool
    var storeCloses: nat
    var waiters: set<Id>
    var returned: map<Id, bool>
    var cleanupRequested: set<RunId>
    var confirmed: set<RunId>
    var sent: multiset<RunId>

    constructor ()
      ensures Now() == NEW && Valid()
    {
      counted, wg, started, running := map[], 0, 0, false;
      phase, closeErr, storeCloses, waiters, returned := Open, false, 0, {}, map[];
      cleanupRequested, confirmed, sent := {}, {}, multiset{};
      new;
      NewEngineIsFine();
    }

    function ThePool(): Pool
      reads this
    {
      Pool(counted, wg, started, running)
    }

    function TheClosing(): Closing
      reads this
    {
      Closing(phase, closeErr, storeCloses, waiters, returned)
    }

    function TheCleanup(): Cleanup
      reads this
    {
      Cleanup(cleanupRequested, confirmed, sent)
    }

    function Now(): Engine
      reads this
    {
      Engine(ThePool(), TheClosing(), TheCleanup())
    }

    /** The wait group counts what runs, nothing runs once the wait has returned, results agree, and each run
        has at most one delivery in flight and none after it was confirmed. */
    ghost predicate Valid()
      reads this
    {
      CloseInv(Now()) && DeliveryInv(ThePool(), TheCleanup())
    }

    // wg.Add(1) and go.
    method Go(g: Id, kind: Goroutine)
      requires g !in counted
      modifies this
      ensures ThePool() == Start(old(ThePool()), g, kind)
      ensures TheClosing() == old(TheClosing()) && TheCleanup() == old(TheCleanup())
    {
      wg, started := wg + 1, started + 1;
      counted := counted[g := kind];
    }

    method BeginRun(g: Id) returns (ok: bool)
      requires Valid() && g !in counted
      modifies this
      ensures Valid() && Now() == Apply(old(Now()), WorkOf(EnterRun(g)))
      ensures ok <==> !IsClosing(old(TheClosing())) && !old(running)
      ensures if ok then counted == old(counted)[g := RunCall(false)] && wg == old(wg) + 1 && running
              else Now() == old(Now())
    {
      hide CloseInv, DeliveryInv;
      StepKeepsValid(Now(), WorkOf(EnterRun(g)));
      if !phase.Open? || running {
        return false;
      }
      running := true;
      Go(g, RunCall(false));
      return true;
    }

    // `cancelled`: the context of the call has ended.
    method BeginListening(g: Id, recovery: Id, accept: Id, cancelled: bool) returns (ok: bool)
      requires Valid() && g in counted && counted[g] == RunCall(false)
      requires recovery !in counted && accept !in counted && recovery != accept
      modifies this
      ensures Valid()
      ensures Now() == if cancelled then old(Now()) else Apply(old(Now()), WorkOf(Listen(g, recovery, accept)))
      ensures ok <==> !IsClosing(old(TheClosing())) && !cancelled
      ensures if ok then wg == old(wg) + 2 && recovery in counted && accept in counted && counted[accept] == AcceptLoop
              else Now() == old(Now())
    {
      hide CloseInv, DeliveryInv;
      StepKeepsValid(Now(), WorkOf(Listen(g, recovery, accept)));
      if !phase.Open? || cancelled {
        return false;
      }
      counted := counted[g := RunCall(true)];
      Go(recovery, RecoveryLoop);
      Go(accept, AcceptLoop);
      return true;
    }

    method AcceptConnection(g: Id, connection: Id) returns (ok: bool)
      requires Valid() && g in counted && counted[g].AcceptLoop? && connection !in counted
      modifies this
      ensures Valid() && Now() == Apply(old(Now()), WorkOf(Accept(g, connection)))
      ensures ok <==> !IsClosing(old(TheClosing()))
      ensures if ok then counted == old(counted)[connection := Connection] && wg == old(wg) + 1
              else Now() == old(Now())
    {
      hide CloseInv, DeliveryInv;
      StepKeepsValid(Now(), WorkOf(Accept(g, connection)));
      if !phase.Open? {
        return false;
      }
      Go(connection, Connection);
      return true;
    }

    method StartRepairJob(g: Id, job: Id)
      requires Valid() && g in counted && counted[g].Connection? && job !in counted
      modifies this
      ensures Valid() && Now() == Apply(old(Now()), WorkOf(StartRepair(g, job)))
      ensures counted == old(counted)[job := RepairJob] && wg == old(wg) + 1
    {
      hide CloseInv, DeliveryInv;
      StepKeepsValid(Now(), WorkOf(StartRepair(g, job)));
      Go(job, RepairJob);
    }

    // wg.Done() at the end of a goroutine.
    method Leave(g: Id)
      requires Valid() && g in counted && !counted[g].Delivering? && wg > 0
      modifies this
      ensures Valid() && Now() == Apply(old(Now()), WorkOf(Finish(g)))
      ensures counted == old(counted) - {g} && wg == old(wg) - 1
    {
      hide CloseInv, DeliveryInv;
      StepKeepsValid(Now(), WorkOf(Finish(g)));
      if counted[g].RunCall? {
        running := false;
      }
      wg := wg - 1;
      counted := counted - {g};
    }

    // requestCleanup; `ready` says that the run has a supervisor socket and a token.
    method AskForCleanup(run: RunId, ready: bool, delivery: Id) returns (sending: bool)
      requires Valid() && delivery !in counted
      modifies this
      ensures Valid() && Now() == Apply(old(Now()), DeliveryOf(RequestCleanup(run, ready, delivery)))
      ensures sending <==> ready && !IsClosing(old(TheClosing())) && run !in old(cleanupRequested)
      ensures if sending
              then counted == old(counted)[delivery := Delivering(run)] && sent == old(sent) + multiset{run}
                   && run in cleanupRequested
              else Now() == old(Now())
    {
      hide CloseInv, DeliveryInv;
      StepKeepsValid(Now(), DeliveryOf(RequestCleanup(run, ready, delivery)));
      if !ready || !phase.Open? || run in cleanupRequested {
        return false;
      }
      cleanupRequested := cleanupRequested + {run};
      sent := sent + multiset{run};
      Go(delivery, Delivering(run));
      return true;
    }

    method DeliveryEnds(g: Id, ok: bool)
      requires Valid() && g in counted && counted[g].Delivering?
      modifies this
      ensures Valid() && Now() == Apply(old(Now()), DeliveryOf(Reply(g, ok)))
      ensures var run := old(counted[g].run);
              && confirmed == old(confirmed) + (if ok then {run} else {})
              && cleanupRequested == old(cleanupRequested) - (if ok then {} else {run})
    {
      hide CloseInv, DeliveryInv;
      StepKeepsValid(Now(), DeliveryOf(Reply(g, ok)));
      var run := counted[g].run;
      if ok {
        confirmed := confirmed + {run};
      } else {
        cleanupRequested := cleanupRequested - {run};
      }
      counted := counted[g := Delivered];
    }

    method BeginClose(k: Id) returns (role: CloseRole)
      requires Valid() && k !in returned && k !in waiters && !IsFirstCloser(TheClosing(), k)
      modifies this
      ensures Valid() && Now() == Apply(old(Now()), CloseOf(EnterClose(k)))
      ensures role.First? <==> !IsClosing(old(TheClosing()))
      ensures role.Done? <==> old(phase).Closed?
      ensures match role
              case First => phase == Waiting(k)
              case Later => phase == old(phase) && k in waiters
              case Done(error) => error == closeErr && k in returned && returned[k] == error
    {
      hide CloseInv, DeliveryInv;
      StepKeepsValid(Now(), CloseOf(EnterClose(k)));
      if phase.Closed? {
        returned := returned[k := closeErr];
        return Done(closeErr);
      }
      if !phase.Open? {
        waiters := waiters + {k};
        return Later;
      }
      phase := Waiting(k);
      return First;
    }

    // After wg.Wait() returned: close the store, record the result, wake the others.
    method EndOfClose(error: bool)
      requires Valid() && phase.Waiting? && wg == 0
      modifies this
      ensures Valid() && Now() ==
              ApplyAll(old(Now()), [CloseOf(WaitReturns), CloseOf(CloseStore(error)), CloseOf(EndClose)])
      ensures phase.Closed? && closeErr == error && storeCloses == old(storeCloses) + 1
    {
      hide Apply, ApplyAll, CloseInv, DeliveryInv;
      ghost var before := Now();
      CloseJoinsEverything(before, [CloseOf(WaitReturns), CloseOf(CloseStore(error)), CloseOf(EndClose)], []);
      OneCleanupDelivery(before, [CloseOf(WaitReturns), CloseOf(CloseStore(error)), CloseOf(EndClose)]);
      var k := phase.closer;
      storeCloses := storeCloses + 1;
      closeErr, phase := error, Closed;
      returned := returned[k := error];
      ThreeCloseSteps(before, error);
    }

    method WakeCloser(k: Id) returns (error: bool)
      requires Valid() && k in waiters && phase.Closed?
      modifies this
      ensures Valid() && Now() == Apply(old(Now()), CloseOf(WaiterReturns(k))) && error == closeErr
      ensures k !in waiters && k in returned && returned[k] == error
    {
      hide CloseInv, DeliveryInv;
      StepKeepsValid(Now(), CloseOf(WaiterReturns(k)));
      returned := returned[k := closeErr];
      waiters := waiters - {k};
      return closeErr;
    }
  }

  lemma StepKeepsValid(e: Engine, s: Step)
    requires CloseInv(e) && DeliveryInv(e.pool, e.cleanup)
    ensures CloseInv(Apply(e, s)) && DeliveryInv(Apply(e, s).pool, Apply(e, s).cleanup)
  {
    hide CloseInv, DeliveryInv, Work, Deliver, Close;
    CloseStepKeeps(e, s);
    match s
    case WorkOf(w) => WorkKeepsDeliveries(e.pool, IsClosing(e.closing), w, e.cleanup);
    case DeliveryOf(d) => DeliverKeeps(e.pool, IsClosing(e.closing), e.cleanup, d);
    case CloseOf(_) =>
  }

  lemma ThreeCloseSteps(e: Engine, error: bool)
    requires e.closing.phase.Waiting? && e.pool.wg == 0
    ensures ApplyAll(e, [CloseOf(WaitReturns), CloseOf(CloseStore(error)), CloseOf(EndClose)]) ==
            e.(closing := e.closing.(phase := Closed, closeErr := error, storeCloses := e.closing.storeCloses + 1,
                                     returned := e.closing.returned[e.closing.phase.closer := error]))
  {
    var x, y, z := CloseOf(WaitReturns), CloseOf(CloseStore(error)), CloseOf(EndClose);
    assert [x, y, z][1..] == [y, z] && [y, z][1..] == [z] && [z][1..] == [];
    var a := Apply(e, x);
    var b := Apply(a, y);
    assert ApplyAll(e, [x, y, z]) == ApplyAll(a, [y, z]);
    assert ApplyAll(a, [y, z]) == ApplyAll(b, [z]);
    assert ApplyAll(b, [z]) == Apply(b, z);
  }
}
