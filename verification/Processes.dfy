/**
 The processes of one run: the supervisor, the worker's process group, and everything else
 that may share or reuse their numbers. An instance is one process for its whole life; a pid
 is a number an instance holds until it is reaped. A process comes into the run's group only
 by a fork of a live member or by a launch of the live supervisor. It may leave the group, and
 then still holds what it opened.
 */
module Processes {
  type Instance = nat
  type Pid = nat

  // `member`: belongs to the run's worker group, not merely to a group with the same number.
  // `kin`: is or was a member, or descends from one.
  datatype Proc = Proc(pid: Pid, pgid: Pid, member: bool, kin: bool, zombie: bool)

  // `tracked`: this engine launched the supervisor and holds its unreaped child handle.
  datatype Table = Table(
    procs: map<Instance, Proc>,
    supervisor: Instance,
    supervisorPid: Pid,
    pgid: Pid,
    tracked: bool,
    exitNotified: bool)

  predicate Live(t: Table, i: Instance) { i in t.procs && !t.procs[i].zombie }

  predicate SupervisorLive(t: Table) { Live(t, t.supervisor) }

  ghost predicate GroupLive(t: Table) { exists i :: Live(t, i) && t.procs[i].member }

  ghost predicate WellFormed(t: Table) {
    && (forall i, j :: i in t.procs && j in t.procs && t.procs[i].pid == t.procs[j].pid ==> i == j)
    && (forall i :: i in t.procs && t.procs[i].member ==> t.procs[i].pgid == t.pgid && t.procs[i].kin)
    && (t.supervisor in t.procs ==> t.procs[t.supervisor].pid == t.supervisorPid)
    && (t.tracked ==> t.supervisor in t.procs)
    && (t.exitNotified ==> !SupervisorLive(t))
  }

  datatype Step =
    | Fork(parent: Instance, child: Instance, pid: Pid)
    | Launch(child: Instance, pid: Pid)
    | StartElsewhere(child: Instance, pid: Pid, pgid: Pid)
    | LeaveGroup(who: Instance, pgid: Pid)
    | Exit(who: Instance)
    | Reap(who: Instance)
    | NotifyExit

  predicate Unused(t: Table, child: Instance, pid: Pid) {
    && child !in t.procs && child != t.supervisor
    && (forall i :: i in t.procs ==> t.procs[i].pid != pid)
  }

  predicate Enabled(t: Table, s: Step) {
    match s
    case Fork(parent, child, pid) => Live(t, parent) && t.procs[parent].kin && Unused(t, child, pid)
    case Launch(child, pid) => SupervisorLive(t) && Unused(t, child, pid)
    case StartElsewhere(child, pid, _) => Unused(t, child, pid)
    case LeaveGroup(who, _) => Live(t, who)
    case Exit(who) => Live(t, who)
    case Reap(who) => who in t.procs && t.procs[who].zombie && !(t.tracked && who == t.supervisor)
    case NotifyExit => !SupervisorLive(t)
  }

  // A step that is not enabled does nothing.
  function Apply(t: Table, s: Step): Table {
    if !Enabled(t, s) then t
    else
      match s
      case Fork(parent, child, pid) => t.(procs := t.procs[child := t.procs[parent].(pid := pid)])
      case Launch(child, pid) => t.(procs := t.procs[child := Proc(pid, t.pgid, true, true, false)])
      case StartElsewhere(child, pid, pgid) => t.(procs := t.procs[child := Proc(pid, pgid, false, false, false)])
      case LeaveGroup(who, pgid) => t.(procs := t.procs[who := t.procs[who].(pgid := pgid, member := false)])
      case Exit(who) => t.(procs := t.procs[who := t.procs[who].(zombie := true)])
      case Reap(who) => t.(procs := t.procs - {who})
      case NotifyExit => t.(exitNotified := true)
  }

  // The engine lets go of its child: a restarted daemon holds no handle.
  function Orphan(t: Table): Table { t.(tracked := false, exitNotified := false) }

  // The engine reaps the exited supervisor and drops its handle.
  function ReapSupervisor(t: Table): Table { Orphan(t.(procs := t.procs - {t.supervisor})) }

  predicate ExitedChild(t: Table) { t.tracked && t.exitNotified }

  // --- What the engine can see, each at one instant ---

  // kill(pid, 0) also succeeds on a zombie.
  predicate ProcessAlive(t: Table, pid: Pid) { exists i :: i in t.procs && t.procs[i].pid == pid }

  // `ps` lists every non-zombie that carries the group number.
  function GroupMembers(t: Table): (pids: set<Pid>)
    ensures forall p :: p in pids <==> exists i :: Live(t, i) && t.procs[i].pgid == t.pgid && t.procs[i].pid == p
  {
    set i | i in t.procs && !t.procs[i].zombie && t.procs[i].pgid == t.pgid :: t.procs[i].pid
  }

  // The evidence of supervisor death: the exit watcher for a tracked child, an absent pid otherwise.
  predicate SeenDead(t: Table) {
    if t.tracked then t.exitNotified else !ProcessAlive(t, t.supervisorPid)
  }

  // --- What survives every step ---

  ghost predicate Quiescent(t: Table) { !SupervisorLive(t) && !GroupLive(t) }

  // Nothing that ever belonged to the run is left: neither in the group nor out of it.
  ghost predicate Silent(t: Table) { !SupervisorLive(t) && forall i :: Live(t, i) ==> !t.procs[i].kin }

  // Outside the group, but with what it opened inside.
  predicate Stray(t: Table, i: Instance) { Live(t, i) && t.procs[i].kin && !t.procs[i].member }

  // A process may stand in a table of this group.
  predicate Fits(t: Table, p: Proc) { p.member ==> p.pgid == t.pgid && p.kin }

  lemma AddKeepsTable(t: Table, child: Instance, p: Proc)
    requires WellFormed(t) && Unused(t, child, p.pid) && Fits(t, p)
    ensures WellFormed(t.(procs := t.procs[child := p]))
    ensures SupervisorLive(t.(procs := t.procs[child := p])) == SupervisorLive(t)
  {
  }

  lemma ChangeKeepsTable(t: Table, who: Instance, p: Proc)
    requires WellFormed(t) && Live(t, who) && p.pid == t.procs[who].pid && Fits(t, p)
    ensures WellFormed(t.(procs := t.procs[who := p]))
    ensures !SupervisorLive(t) ==> !SupervisorLive(t.(procs := t.procs[who := p]))
  {
  }

  lemma RemoveKeepsTable(t: Table, who: Instance)
    requires WellFormed(t) && !(t.tracked && who == t.supervisor)
    ensures WellFormed(t.(procs := t.procs - {who}))
    ensures !SupervisorLive(t) ==> !SupervisorLive(t.(procs := t.procs - {who}))
  {
  }

  lemma ApplyKeepsTable(t: Table, s: Step)
    requires WellFormed(t)
    ensures WellFormed(Apply(t, s))
    ensures Apply(t, s).tracked == t.tracked && Apply(t, s).supervisor == t.supervisor
    ensures Apply(t, s).pgid == t.pgid && Apply(t, s).supervisorPid == t.supervisorPid
    ensures !SupervisorLive(t) ==> !SupervisorLive(Apply(t, s))
    ensures t.exitNotified ==> Apply(t, s).exitNotified
  {
    hide Unused;
    if Enabled(t, s) {
      match s
      case Fork(parent, child, pid) => AddKeepsTable(t, child, t.procs[parent].(pid := pid));
      case Launch(child, pid) => AddKeepsTable(t, child, Proc(pid, t.pgid, true, true, false));
      case StartElsewhere(child, pid, pgid) => AddKeepsTable(t, child, Proc(pid, pgid, false, false, false));
      case LeaveGroup(who, pgid) => ChangeKeepsTable(t, who, t.procs[who].(pgid := pgid, member := false));
      case Exit(who) => ChangeKeepsTable(t, who, t.procs[who].(zombie := true));
      case Reap(who) => RemoveKeepsTable(t, who);
      case NotifyExit =>
    }
  }

  /** Once the supervisor is dead, a live group was live before: nothing but a live member can
      bring a process into it. */
  lemma GroupNeedsALiveMember(t: Table, s: Step)
    requires !SupervisorLive(t) && GroupLive(Apply(t, s))
    ensures GroupLive(t)
  {
  }

  /** Once the supervisor is dead, kin descends from live kin only. */
  lemma KinNeedsLiveKin(t: Table, s: Step)
    requires Silent(t)
    ensures Silent(Apply(t, s))
  {
  }

  lemma LettingGoKeepsTable(t: Table)
    requires WellFormed(t)
    ensures WellFormed(Orphan(t)) && WellFormed(ReapSupervisor(t))
    ensures Quiescent(t) ==> Quiescent(Orphan(t)) && Quiescent(ReapSupervisor(t))
    ensures Silent(t) ==> Silent(Orphan(t)) && Silent(ReapSupervisor(t))
  {
    var r := ReapSupervisor(t);
    assert forall i :: Live(r, i) ==> Live(t, i) && r.procs[i] == t.procs[i];
  }

  lemma SeenDeadIsDead(t: Table)
    requires WellFormed(t) && SeenDead(t)
    ensures !SupervisorLive(t)
  {
  }

  lemma LiveGroupIsListed(t: Table)
    requires WellFormed(t) && GroupLive(t)
    ensures GroupMembers(t) != {}
  {
    var i :| Live(t, i) && t.procs[i].member;
    assert t.procs[i].pid in GroupMembers(t);
  }

  /** The exited child the engine has not reaped still holds its pid, so a group with a live
      process is listed under some other pid. */
  lemma PinnedSupervisorIsNotAMember(t: Table)
    requires WellFormed(t) && t.tracked && !SupervisorLive(t) && GroupLive(t)
    ensures exists p :: p in GroupMembers(t) && p != t.supervisorPid
  {
    var i :| Live(t, i) && t.procs[i].member;
    assert t.procs[i].pid in GroupMembers(t);
  }
}
