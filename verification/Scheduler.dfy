/** The SMP scheduler as a transition system over any number of cores. A step is one
    critical section under the process-table lock, one run-queue operation, or one
    core-local action between them. */
module Scheduler {
  import opened Basics

  type Pid = nat

  datatype State = Runnable | Running | Waiting | Dead

  datatype Msg = Data(n: nat) | Down(ref: nat, pid: Pid, reason: string)

  /** `saved` is a history variable: the process's context is completely on its stack.
      `deadline` is that of the receive it is blocked in. */
  datatype Proc = Proc(
    state: State, mailbox: seq<Msg>, killPending: bool, links: seq<Pid>,
    monitors: seq<(nat, Pid)>, reason: string, saved: bool, deadline: Option<nat>)

  /** The deferred transition an outgoing process leaves for its core's scheduler. */
  datatype Action = NoAction | Requeue | Block(deadline: Option<nat>)

  /** Where a core is. `Held` has popped a pid it has not looked up yet; `Switching` has
      marked it Running; `Spawned` still owes its child a run-queue entry; `Blocking` has
      found no message; `Leaving` is switching out; `Left` is back in the scheduler with
      the context saved; `Due` holds pids taken off the timer wheel at tick `at`. */
  datatype Phase =
    | Sched
    | Held(held: Pid)
    | Switching(pid: Pid)
    | Exec(pid: Pid)
    | Spawned(parent: Option<Pid>, child: Pid)
    | Blocking(pid: Pid, deadline: Option<nat>)
    | Leaving(pid: Pid, action: Action)
    | Left(pid: Pid, action: Action)
    | Due(at: nat, due: seq<Pid>)

  datatype Core = Core(runq: seq<Pid>, phase: Phase)

  /** `downs` and `reaped` are history: refs whose DOWN was attempted, and who was reaped. */
  datatype Sys = Sys(
    table: map<Pid, Proc>, cores: seq<Core>, wheel: seq<(nat, Pid)>, now: nat,
    nextPid: Pid, nextRef: nat, downs: seq<nat>, reaped: seq<(Pid, string)>)

  function Put(s: Sys, pid: Pid, p: Proc): Sys { s.(table := s.table[pid := p]) }

  function SetPhase(s: Sys, c: nat, phase: Phase): Sys
    requires c < |s.cores|
  {
    s.(cores := s.cores[c := s.cores[c].(phase := phase)])
  }

  function Enqueue(s: Sys, c: nat, pid: Pid): Sys
    requires c < |s.cores|
  {
    s.(cores := s.cores[c := s.cores[c].(runq := s.cores[c].runq + [pid])])
  }

  function DeliverFragment(s: Sys, c: nat, to: Pid, msg: Msg): Sys
    requires c < |s.cores|
  {
    if to !in s.table || s.table[to].state.Dead? then s
    else
      var p := s.table[to].(mailbox := s.table[to].mailbox + [msg]);
      if p.state.Waiting? then Enqueue(Put(s, to, p.(state := Runnable)), c, to) else Put(s, to, p)
  }

  function MarkDead(s: Sys, c: nat, pid: Pid, reason: string): Sys
    requires c < |s.cores|
  {
    if pid !in s.table then s
    else
      var p := s.table[pid];
      match p.state
      case Dead => s
      case Running => if p.killPending then s else Put(s, pid, p.(killPending := true, reason := reason))
      case _ => Enqueue(Put(s, pid, p.(state := Dead, reason := reason)), c, pid)
  }

  function DeliverDown(s: Sys, c: nat, watcher: Pid, ref: nat, dead: Pid, reason: string): Sys
    requires c < |s.cores|
  {
    var s' := DeliverFragment(s, c, watcher, Down(ref, dead, reason));
    s'.(downs := s'.downs + [ref])
  }

  function DownAll(s: Sys, c: nat, dead: Pid, monitors: seq<(nat, Pid)>, reason: string): (s': Sys)
    requires c < |s.cores|
    ensures |s'.cores| == |s.cores|
    decreases |monitors|
  {
    if monitors == [] then s
    else DownAll(DeliverDown(s, c, monitors[0].1, monitors[0].0, dead, reason), c, dead, monitors[1..], reason)
  }

  function MarkAll(s: Sys, c: nat, links: seq<Pid>, reason: string): (s': Sys)
    requires c < |s.cores|
    ensures |s'.cores| == |s.cores|
    decreases |links|
  {
    if links == [] then s else MarkAll(MarkDead(s, c, links[0], reason), c, links[1..], reason)
  }

  /** Removes a dead process and sends its exit signals. */
  function Reap(s: Sys, c: nat, pid: Pid): Sys
    requires c < |s.cores| && pid in s.table
  {
    var p := s.table[pid];
    var s1 := s.(table := s.table - {pid}, reaped := s.reaped + [(pid, p.reason)]);
    var s2 := DownAll(s1, c, pid, p.monitors, p.reason);
    if p.reason != "normal" then MarkAll(s2, c, p.links, p.reason) else s2
  }

  datatype Step =
    | PopOwn(c: nat) | Steal(c: nat, victim: nat) | Take(c: nat) | SwitchIn(c: nat)
    | Yield(c: nat) | Exit(c: nat, reason: string) | Save(c: nat) | Post(c: nat)
    | RecvTake(c: nat, i: nat) | RecvKilled(c: nat) | RecvMiss(c: nat, deadline: Option<nat>) | PushTimer(c: nat)
    | Send(c: nat, to: Pid, n: nat) | Kill(c: nat, pid: Pid, reason: string)
    | Spawn(c: nat, link: bool) | EnqueueChild(c: nat) | Monitor(c: nat, target: Pid)
    | Tick | TakeDue(c: nat) | WakeOne(c: nat)

  /** Core `c` runs kernel or process code that may send, kill or spawn. */
  predicate Active(s: Sys, c: nat) { c < |s.cores| && (s.cores[c].phase.Sched? || s.cores[c].phase.Exec?) }

  predicate Executing(s: Sys, c: nat) { c < |s.cores| && s.cores[c].phase.Exec? }

  /** A step a core may take here. That the lookups it unwraps succeed is not assumed. */
  predicate Enabled(s: Sys, step: Step)
  {
    match step
    case PopOwn(c) => c < |s.cores| && s.cores[c].phase.Sched? && s.cores[c].runq != []
    case Steal(c, v) => c < |s.cores| && s.cores[c].phase.Sched? && v < |s.cores| && v != c && s.cores[v].runq != []
    case Take(c) => c < |s.cores| && s.cores[c].phase.Held?
    case SwitchIn(c) => c < |s.cores| && s.cores[c].phase.Switching?
    case Yield(c) => Executing(s, c)
    case Exit(c, _) => Executing(s, c)
    case Save(c) => c < |s.cores| && s.cores[c].phase.Leaving?
    case Post(c) => c < |s.cores| && s.cores[c].phase.Left?
    case RecvTake(c, i) =>
      Executing(s, c) && (s.cores[c].phase.pid in s.table ==>
        !s.table[s.cores[c].phase.pid].killPending && i < |s.table[s.cores[c].phase.pid].mailbox|)
    case RecvKilled(c) =>
      Executing(s, c) && (s.cores[c].phase.pid in s.table ==> s.table[s.cores[c].phase.pid].killPending)
    case RecvMiss(c, _) =>
      Executing(s, c) && (s.cores[c].phase.pid in s.table ==> !s.table[s.cores[c].phase.pid].killPending)
    case PushTimer(c) => c < |s.cores| && s.cores[c].phase.Blocking?
    case Send(c, _, _) => Active(s, c)
    case Kill(c, _, _) => Active(s, c)
    case Spawn(c, link) => Active(s, c) && (link ==> Executing(s, c))
    case EnqueueChild(c) => c < |s.cores| && s.cores[c].phase.Spawned?
    case Monitor(c, _) => Executing(s, c)
    case Tick => true
    case TakeDue(c) => c == 0 < |s.cores| && s.cores[c].phase.Sched?
    case WakeOne(c) => c < |s.cores| && s.cores[c].phase.Due?
  }

  function Expired(wheel: seq<(nat, Pid)>, now: nat): seq<Pid>
  {
    if wheel == [] then [] else (if wheel[0].0 <= now then [wheel[0].1] else []) + Expired(wheel[1..], now)
  }

  function Unexpired(wheel: seq<(nat, Pid)>, now: nat): seq<(nat, Pid)>
  {
    if wheel == [] then [] else (if wheel[0].0 <= now then [] else [wheel[0]]) + Unexpired(wheel[1..], now)
  }

  /** The pid whose table entry a step looks up without allowing for its absence. */
  function Unwraps(s: Sys, step: Step): Option<Pid>
    requires Enabled(s, step)
  {
    match step
    case SwitchIn(c) => Some(s.cores[c].phase.pid)
    case Yield(c) => Some(s.cores[c].phase.pid)
    case Exit(c, _) => Some(s.cores[c].phase.pid)
    case Save(c) => Some(s.cores[c].phase.pid)
    case Post(c) => Some(s.cores[c].phase.pid)
    case RecvTake(c, _) => Some(s.cores[c].phase.pid)
    case RecvKilled(c) => Some(s.cores[c].phase.pid)
    case RecvMiss(c, _) => Some(s.cores[c].phase.pid)
    case _ => None
  }

  function Apply(s: Sys, step: Step): Sys
    requires Enabled(s, step)
    requires Unwraps(s, step).Some? ==> Unwraps(s, step).value in s.table
  {
    match step
    case PopOwn(c) =>
      s.(cores := s.cores[c := Core(s.cores[c].runq[1..], Held(s.cores[c].runq[0]))])
    case Steal(c, v) =>
      var q := s.cores[v].runq;
      SetPhase(s.(cores := s.cores[v := s.cores[v].(runq := q[..|q| - 1])]), c, Held(q[|q| - 1]))
    case Take(c) => ApplyTake(s, c)
    case SwitchIn(c) =>
      var pid := s.cores[c].phase.pid;
      SetPhase(Put(s, pid, s.table[pid].(saved := false)), c, Exec(pid))
    case Yield(c) => SetPhase(s, c, Leaving(s.cores[c].phase.pid, Requeue))
    case Exit(c, reason) =>
      var pid := s.cores[c].phase.pid;
      SetPhase(Put(s, pid, s.table[pid].(state := Dead, reason := reason)), c, Leaving(pid, NoAction))
    case Save(c) =>
      var pid := s.cores[c].phase.pid;
      SetPhase(Put(s, pid, s.table[pid].(saved := true)), c, Left(pid, s.cores[c].phase.action))
    case Post(c) => ApplyPost(s, c)
    case RecvTake(c, i) =>
      var pid := s.cores[c].phase.pid;
      var box := s.table[pid].mailbox;
      Put(s, pid, s.table[pid].(mailbox := box[..i] + box[i + 1..]))
    case RecvKilled(c) =>
      var pid := s.cores[c].phase.pid;
      SetPhase(Put(s, pid, s.table[pid].(state := Dead)), c, Leaving(pid, NoAction))
    case RecvMiss(c, deadline) => SetPhase(s, c, Blocking(s.cores[c].phase.pid, deadline))
    case PushTimer(c) =>
      var Blocking(pid, deadline) := s.cores[c].phase;
      SetPhase(if deadline.Some? then s.(wheel := s.wheel + [(deadline.value, pid)]) else s,
               c, Leaving(pid, Block(deadline)))
    case Send(c, to, n) => DeliverFragment(s, c, to, Data(n))
    case Kill(c, pid, reason) => MarkDead(s, c, pid, reason)
    case Spawn(c, link) => ApplySpawn(s, c, link)
    case EnqueueChild(c) =>
      var Spawned(parent, child) := s.cores[c].phase;
      SetPhase(Enqueue(s, c, child), c, if parent.Some? then Exec(parent.value) else Sched)
    case Monitor(c, target) =>
      var s' := s.(nextRef := s.nextRef + 1);
      if target in s.table && !s.table[target].state.Dead?
      then Put(s', target, s.table[target].(monitors := s.table[target].monitors + [(s.nextRef, s.cores[c].phase.pid)]))
      else DeliverDown(s', c, s.cores[c].phase.pid, s.nextRef, target, "noproc")
    case Tick => s.(now := s.now + 1)
    case TakeDue(c) => SetPhase(s.(wheel := Unexpired(s.wheel, s.now)), c, Due(s.now, Expired(s.wheel, s.now)))
    case WakeOne(c) => ApplyWake(s, c)
  }

  /** The popped pid is looked up: run it, reap it, or drop a stale entry. */
  function ApplyTake(s: Sys, c: nat): Sys
    requires c < |s.cores| && s.cores[c].phase.Held?
  {
    var pid := s.cores[c].phase.held;
    if pid in s.table && s.table[pid].state.Runnable?
    then SetPhase(Put(s, pid, s.table[pid].(state := Running)), c, Switching(pid))
    else
      var s' := SetPhase(s, c, Sched);
      if pid in s.table && s.table[pid].state.Dead? then Reap(s', c, pid) else s'
  }

  /** The outgoing context is saved: perform its deferred transition, then reap the dead. */
  function ApplyPost(s: Sys, c: nat): Sys
    requires c < |s.cores| && s.cores[c].phase.Left? && s.cores[c].phase.pid in s.table
  {
    var Left(pid, action) := s.cores[c].phase;
    var p0 := s.table[pid];
    var p := if !action.NoAction? && p0.killPending then p0.(state := Dead) else p0;
    var s' := SetPhase(s, c, Sched);
    if p.state.Dead? then Reap(Put(s', pid, p), c, pid)
    else if !action.NoAction? && p.state.Running? then
      if action.Block? && p.mailbox == [] then Put(s', pid, p.(state := Waiting, deadline := action.deadline))
      else Enqueue(Put(s', pid, p.(state := Runnable)), c, pid)
    else s'
  }

  function ApplySpawn(s: Sys, c: nat, link: bool): Sys
    requires Active(s, c) && (link ==> Executing(s, c))
  {
    var pid := s.nextPid;
    var parent := if s.cores[c].phase.Exec? then Some(s.cores[c].phase.pid) else None;
    var linked := link && parent.value in s.table;
    var s1 := if linked
              then Put(s, parent.value, s.table[parent.value].(links := s.table[parent.value].links + [pid]))
              else s;
    var child := Proc(Runnable, [], false, if linked then [parent.value] else [], [], "normal", true, None);
    SetPhase(Put(s1, pid, child).(nextPid := pid + 1), c, Spawned(parent, pid))
  }

  /** One pid off the in-flight due list; done with it, the core goes back to scheduling. */
  function ApplyWake(s: Sys, c: nat): Sys
    requires c < |s.cores| && s.cores[c].phase.Due?
  {
    var Due(at, due) := s.cores[c].phase;
    if due == [] then SetPhase(s, c, Sched)
    else
      var pid, s' := due[0], SetPhase(s, c, Due(at, due[1..]));
      if pid in s.table && s.table[pid].state.Waiting?
      then Enqueue(Put(s', pid, s.table[pid].(state := Runnable)), c, pid)
      else if pid in s.table && s.table[pid].state.Running?
      then s'.(wheel := s'.wheel + [(at + 1, pid)])
      else s'
  }
}
