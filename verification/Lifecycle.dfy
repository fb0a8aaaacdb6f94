/** What a step does, seen from one process: which messages reach it, what becomes of it. And
    what that adds up to over every run: mail is neither lost, made up nor reordered. */
module Lifecycle {
  import opened Basics
  import opened Scheduler
  import opened SchedulerSafety
  import opened ExitSignals

  /** The DOWNs that a death with these monitors means for `pid`, in order of monitoring. */
  ghost function DownsFor(monitors: seq<(nat, Pid)>, pid: Pid, dead: Pid, reason: string): seq<Msg>
  {
    if monitors == [] then []
    else
      (if monitors[0].1 == pid then [Down(monitors[0].0, dead, reason)] else [])
      + DownsFor(monitors[1..], pid, dead, reason)
  }

  /** A live process gets messages, and they wake it. */
  ghost function Mailed(p: Proc, msgs: seq<Msg>): Proc
  {
    if p.state.Dead? || msgs == [] then p
    else p.(mailbox := p.mailbox + msgs, state := if p.state.Waiting? then Runnable else p.state)
  }

  /** A process told to die: off a core it is dead, on one it is so at its next stop, and the
      first reason stands. */
  ghost function Told(p: Proc, reason: string): Proc
  {
    if p.state.Dead? || (p.state.Running? && p.killPending) then p
    else if p.state.Running? then p.(killPending := true, reason := reason)
    else p.(state := Dead, reason := reason)
  }

  /** After `x` is reaped: its watchers have their DOWNs, and unless it ended normally those
      linked to it are told to die. */
  ghost function AfterReap(s: Sys, x: Pid, pid: Pid): Option<Proc>
    requires x in s.table
  {
    if pid == x || pid !in s.table then None
    else
      var dead := s.table[x];
      var p := Mailed(s.table[pid], DownsFor(dead.monitors, pid, x, dead.reason));
      Some(if dead.reason != "normal" && pid in dead.links then Told(p, dead.reason) else p)
  }

  /** After the deferred transition of `x`. */
  ghost function AfterPost(s: Sys, x: Pid, action: Action, pid: Pid): Option<Proc>
    requires x in s.table
  {
    var p := s.table[x];
    if p.state.Dead? || (!action.NoAction? && p.killPending) then AfterReap(s, x, pid)
    else if pid != x || action.NoAction? || !p.state.Running? then Old(s, pid)
    else if action.Requeue? || p.mailbox != [] then Some(p.(state := Runnable))
    else Some(p.(state := Waiting, deadline := action.deadline))
  }

  ghost function Old(s: Sys, pid: Pid): Option<Proc> { if pid in s.table then Some(s.table[pid]) else None }

  /** The process whose code or context a step is about. */
  ghost function Subject(s: Sys, step: Step): Option<Pid>
    requires Enabled(s, step)
  {
    match step
    case Take(c) => Some(s.cores[c].phase.held)
    case Spawn(c, _) => if s.cores[c].phase.Exec? then Some(s.cores[c].phase.pid) else None
    case Monitor(c, _) => Some(s.cores[c].phase.pid)
    case WakeOne(c) => if s.cores[c].phase.due == [] then None else Some(s.cores[c].phase.due[0])
    case _ => Unwraps(s, step)
  }

  /** What becomes of `pid` in a step. */
  ghost function Next(s: Sys, step: Step, pid: Pid): Option<Proc>
    requires Enabled(s, step) && Unpanicked(s, step)
  {
    var me := Subject(s, step) == Some(pid) && pid in s.table;
    match step
    case Take(c) =>
      var x := s.cores[c].phase.held;
      if x in s.table && s.table[x].state.Dead? then AfterReap(s, x, pid)
      else if me && s.table[pid].state.Runnable? then Some(s.table[pid].(state := Running))
      else Old(s, pid)
    case Post(c) => AfterPost(s, s.cores[c].phase.pid, s.cores[c].phase.action, pid)
    case Send(_, to, n) =>
      if pid == to && pid in s.table then Some(Mailed(s.table[pid], [Data(n)])) else Old(s, pid)
    case Kill(_, x, reason) => if pid == x && pid in s.table then Some(Told(s.table[pid], reason)) else Old(s, pid)
    case Spawn(_, link) =>
      if pid == s.nextPid then
        var parent := Subject(s, step);
        Some(Proc(Runnable, [], false, if link && parent.value in s.table then [parent.value] else [], [], "normal",
                  true, None))
      else if me && link then Some(s.table[pid].(links := s.table[pid].links + [s.nextPid]))
      else Old(s, pid)
    case Monitor(_, target) =>
      if target in s.table && !s.table[target].state.Dead? then
        if pid == target
        then Some(s.table[pid].(monitors := s.table[pid].monitors + [(s.nextRef, Subject(s, step).value)]))
        else Old(s, pid)
      else if me then Some(Mailed(s.table[pid], [Down(s.nextRef, target, "noproc")])) else Old(s, pid)
    case SwitchIn(_) => if me then Some(s.table[pid].(saved := false)) else Old(s, pid)
    case Save(_) => if me then Some(s.table[pid].(saved := true)) else Old(s, pid)
    case Exit(_, reason) => if me then Some(s.table[pid].(state := Dead, reason := reason)) else Old(s, pid)
    case RecvKilled(_) => if me then Some(s.table[pid].(state := Dead)) else Old(s, pid)
    case RecvTake(_, i) =>
      if me then Some(s.table[pid].(mailbox := s.table[pid].mailbox[..i] + s.table[pid].mailbox[i + 1..]))
      else Old(s, pid)
    case WakeOne(_) =>
      if me && s.table[pid].state.Waiting? then Some(s.table[pid].(state := Runnable)) else Old(s, pid)
    case _ => Old(s, pid)
  }

  lemma MailedTwice(p: Proc, a: seq<Msg>, b: seq<Msg>)
    ensures Mailed(Mailed(p, a), b) == Mailed(p, a + b)
  {
    assert a == [] ==> a + b == b;
    assert b == [] ==> a + b == a;
    assert p.mailbox + a + b == p.mailbox + (a + b);
  }

  lemma DeliverOne(s: Sys, c: nat, to: Pid, msg: Msg, pid: Pid)
    requires c < |s.cores|
    ensures Old(DeliverFragment(s, c, to, msg), pid)
      == if pid == to && pid in s.table then Some(Mailed(s.table[pid], [msg])) else Old(s, pid)
  {
  }

  lemma KillOne(s: Sys, c: nat, x: Pid, reason: string, pid: Pid)
    requires c < |s.cores|
    ensures Old(MarkDead(s, c, x, reason), pid)
      == if pid == x && pid in s.table then Some(Told(s.table[pid], reason)) else Old(s, pid)
  {
  }

  lemma {:induction false} DownsReach(s: Sys, c: nat, dead: Pid, monitors: seq<(nat, Pid)>, reason: string, pid: Pid)
    requires c < |s.cores|
    ensures Old(DownAll(s, c, dead, monitors, reason), pid)
      == if pid in s.table then Some(Mailed(s.table[pid], DownsFor(monitors, pid, dead, reason))) else None
    decreases |monitors|
  {
    hide DeliverFragment, Mailed;
    if monitors == [] {
      MailedNothing(s, pid);
    } else {
      var (ref, watcher) := monitors[0];
      DeliverOne(s, c, watcher, Down(ref, dead, reason), pid);
      var s1 := DeliverDown(s, c, watcher, ref, dead, reason);
      assert Old(s1, pid) == Old(DeliverFragment(s, c, watcher, Down(ref, dead, reason)), pid);
      SameCores(s, c, watcher, Down(ref, dead, reason));
      DownsReach(s1, c, dead, monitors[1..], reason, pid);
      if pid in s.table {
        var more := DownsFor(monitors[1..], pid, dead, reason);
        assert [] + more == more;
        MailedTwice(s.table[pid], [Down(ref, dead, reason)], more);
      }
    }
  }

  lemma MailedNothing(s: Sys, pid: Pid)
    ensures pid in s.table ==> Mailed(s.table[pid], []) == s.table[pid]
  {
  }

  lemma SameCores(s: Sys, c: nat, to: Pid, msg: Msg)
    requires c < |s.cores|
    ensures |DeliverFragment(s, c, to, msg).cores| == |s.cores|
  {
  }

  lemma {:induction false} KillsReach(s: Sys, c: nat, links: seq<Pid>, reason: string, pid: Pid)
    requires c < |s.cores|
    ensures Old(MarkAll(s, c, links, reason), pid)
      == if pid in s.table && pid in links then Some(Told(s.table[pid], reason)) else Old(s, pid)
    decreases |links|
  {
    hide MarkDead;
    if links != [] {
      KillOne(s, c, links[0], reason, pid);
      MarkedCores(s, c, links[0], reason);
      KillsReach(MarkDead(s, c, links[0], reason), c, links[1..], reason, pid);
      assert pid in links <==> pid == links[0] || pid in links[1..];
    }
  }

  lemma MarkedCores(s: Sys, c: nat, x: Pid, reason: string)
    requires c < |s.cores|
    ensures |MarkDead(s, c, x, reason).cores| == |s.cores|
  {
  }

  /** Reaping, from where the core has let go of the process. */
  lemma ReapReaches(s0: Sys, s: Sys, c: nat, x: Pid, pid: Pid)
    requires c < |s.cores| && x in s0.table && x in s.table
    requires s.table.Keys == s0.table.Keys && forall q :: q in s.table && q != x ==> s.table[q] == s0.table[q]
    requires s.table[x].monitors == s0.table[x].monitors && s.table[x].links == s0.table[x].links
    requires s.table[x].reason == s0.table[x].reason
    ensures Old(Reap(s, c, x), pid) == AfterReap(s0, x, pid)
  {
    hide DownAll, MarkAll, Mailed, Told;
    var p := s.table[x];
    var s1 := s.(table := s.table - {x}, reaped := s.reaped + [(x, p.reason)]);
    DownsReach(s1, c, x, p.monitors, p.reason, pid);
    var s2 := DownAll(s1, c, x, p.monitors, p.reason);
    KillsReach(s2, c, p.links, p.reason, pid);
  }

  /** In every reachable state and for every process: a step does to it what `Next` says. */
  lemma TableStep(s: Sys, step: Step, pid: Pid)
    requires Inv(s) && Enabled(s, step) && Unpanicked(s, step)
    ensures Old(Apply(s, step), pid) == Next(s, step, pid)
  {
    hide Inv, DeliverFragment, MarkDead, Reap, Mailed, Told, AfterReap, ApplyTake, ApplyPost, ApplySpawn, ApplyWake;
    match step
    case Take(c) => TakeTable(s, c, pid);
    case Post(c) => PostTable(s, c, pid);
    case Send(c, to, n) => DeliverOne(s, c, to, Data(n), pid);
    case Kill(c, x, reason) => KillOne(s, c, x, reason, pid);
    case Spawn(c, link) => SpawnTable(s, c, link, pid);
    case Monitor(c, target) => MonitorTable(s, c, target, pid);
    case WakeOne(c) => WakeTable(s, c, pid);
    case _ =>
  }

  lemma TakeTable(s: Sys, c: nat, pid: Pid)
    requires Enabled(s, Take(c))
    ensures Old(ApplyTake(s, c), pid) == Next(s, Take(c), pid)
  {
    hide Reap, AfterReap;
    var x := s.cores[c].phase.held;
    if x in s.table && s.table[x].state.Dead? { ReapReaches(s, SetPhase(s, c, Sched), c, x, pid); }
  }

  lemma PostTable(s: Sys, c: nat, pid: Pid)
    requires Enabled(s, Post(c)) && Unpanicked(s, Post(c))
    ensures Old(ApplyPost(s, c), pid) == Next(s, Post(c), pid)
  {
    hide Reap, AfterReap;
    var Left(x, action) := s.cores[c].phase;
    var p := if !action.NoAction? && s.table[x].killPending then s.table[x].(state := Dead) else s.table[x];
    if p.state.Dead? { ReapReaches(s, Put(SetPhase(s, c, Sched), x, p), c, x, pid); }
  }

  lemma SpawnTable(s: Sys, c: nat, link: bool, pid: Pid)
    requires Inv(s) && Enabled(s, Spawn(c, link))
    ensures Old(ApplySpawn(s, c, link), pid) == Next(s, Spawn(c, link), pid)
  {
    hide Inv;
    InvPid(s, s.nextPid);
  }

  lemma MonitorTable(s: Sys, c: nat, target: Pid, pid: Pid)
    requires Enabled(s, Monitor(c, target))
    ensures Old(Apply(s, Monitor(c, target)), pid) == Next(s, Monitor(c, target), pid)
  {
    hide DeliverFragment, Mailed;
    var me, s' := s.cores[c].phase.pid, s.(nextRef := s.nextRef + 1);
    DeliverOne(s', c, me, Down(s.nextRef, target, "noproc"), pid);
  }

  lemma WakeTable(s: Sys, c: nat, pid: Pid)
    requires Enabled(s, WakeOne(c))
    ensures Old(ApplyWake(s, c), pid) == Next(s, WakeOne(c), pid)
  {
  }

  /** A message sent to a live process is the last of its mailbox, and nobody else's mail
      changes. */
  lemma SendDelivers(s: Sys, c: nat, to: Pid, n: nat)
    requires Inv(s) && Enabled(s, Send(c, to, n))
    ensures var s' := Apply(s, Send(c, to, n));
      && s'.table.Keys == s.table.Keys
      && (forall q :: q in s.table && q != to ==> s'.table[q] == s.table[q])
      && (to in s.table && !s.table[to].state.Dead? ==>
            s'.table[to].mailbox == s.table[to].mailbox + [Data(n)] && !s'.table[to].state.Waiting?)
  {
    hide Inv, Apply;
    var s' := Apply(s, Send(c, to, n));
    forall q ensures Old(s', q) == Next(s, Send(c, to, n), q) { TableStep(s, Send(c, to, n), q); }
    forall q ensures q in s'.table <==> q in s.table { assert Old(s', q) == Next(s, Send(c, to, n), q); }
    assert Old(s', to) == Next(s, Send(c, to, n), to);
    forall q | q in s.table && q != to ensures s'.table[q] == s.table[q] {
      assert Old(s', q) == Next(s, Send(c, to, n), q);
    }
  }

  ghost predicate IsLive(s: Sys, pid: Pid) { pid in s.table && !s.table[pid].state.Dead? }

  /** Whom a step reaps. */
  ghost function Reaped(s: Sys, step: Step): Option<Pid>
    requires Enabled(s, step) && Unpanicked(s, step)
  {
    match step
    case Take(c) =>
      var x := s.cores[c].phase.held;
      if x in s.table && s.table[x].state.Dead? then Some(x) else None
    case Post(c) =>
      var Left(x, action) := s.cores[c].phase;
      if s.table[x].state.Dead? || (!action.NoAction? && s.table[x].killPending) then Some(x) else None
    case _ => None
  }

  /** The messages a step brings `pid`: a datum sent to it, the answer to monitoring the dead,
      the DOWNs of a process it watches. */
  ghost function Brought(s: Sys, step: Step, pid: Pid): seq<Msg>
    requires Enabled(s, step) && Unpanicked(s, step)
  {
    var x := Reaped(s, step);
    if !IsLive(s, pid) || x == Some(pid) then []
    else if x.Some? then DownsFor(s.table[x.value].monitors, pid, x.value, s.table[x.value].reason)
    else if step.Send? && step.to == pid then [Data(step.n)]
    else if step.Monitor? && s.cores[step.c].phase.pid == pid && !IsLive(s, step.target)
      then [Down(s.nextRef, step.target, "noproc")]
    else []
  }

  /** The message a step takes from `pid`'s mailbox. */
  ghost function Took(s: Sys, step: Step, pid: Pid): seq<Msg>
    requires Enabled(s, step) && Unpanicked(s, step)
  {
    if step.RecvTake? && s.cores[step.c].phase.pid == pid then [s.table[pid].mailbox[step.i]] else []
  }

  /** A step puts what it brings at the end of the mailbox and takes at most one message out. */
  lemma MailStep(s: Sys, step: Step, pid: Pid)
    requires Inv(s) && Enabled(s, step) && Unpanicked(s, step) && pid in Apply(s, step).table
    ensures var box := Apply(s, step).table[pid].mailbox;
      if pid !in s.table then box == []
      else if step.RecvTake? && s.cores[step.c].phase.pid == pid
      then step.i < |s.table[pid].mailbox| && box == s.table[pid].mailbox[..step.i] + s.table[pid].mailbox[step.i + 1..]
      else box == s.table[pid].mailbox + Brought(s, step, pid)
  {
    hide Inv, Apply;
    TableStep(s, step, pid);
    InvPid(s, s.nextPid);
    assert Some(Apply(s, step).table[pid]) == Next(s, step, pid);
    if pid in s.table { assert s.table[pid].mailbox + [] == s.table[pid].mailbox; }
  }

  /** All that was brought to `pid` in the first `k` steps, in order, and all it took. */
  ghost function BroughtBy(states: seq<Sys>, steps: seq<Step>, k: nat, pid: Pid): seq<Msg>
    requires IsRun(states, steps) && k <= |steps|
  {
    if k == 0 then []
    else
      RunInv(states, steps, k - 1);
      BroughtBy(states, steps, k - 1, pid) + Brought(states[k - 1], steps[k - 1], pid)
  }

  ghost function TookBy(states: seq<Sys>, steps: seq<Step>, k: nat, pid: Pid): seq<Msg>
    requires IsRun(states, steps) && k <= |steps|
  {
    if k == 0 then []
    else
      RunInv(states, steps, k - 1);
      TookBy(states, steps, k - 1, pid) + Took(states[k - 1], steps[k - 1], pid)
  }

  /** `left` and `gone` are the positions of `brought` still there, in order, and taken. */
  ghost predicate Accounts(brought: seq<Msg>, left: seq<nat>, box: seq<Msg>, gone: seq<nat>, took: seq<Msg>)
  {
    && |left| == |box| && |gone| == |took|
    && (forall j :: 0 <= j < |left| ==> left[j] < |brought| && box[j] == brought[left[j]])
    && (forall j :: 0 <= j < |gone| ==> gone[j] < |brought| && took[j] == brought[gone[j]])
    && (forall i, j :: 0 <= i < j < |left| ==> left[i] < left[j])
    && (forall i, j :: 0 <= i < j < |gone| ==> gone[i] != gone[j])
    && (forall k :: 0 <= k < |brought| ==> (k in left <==> k !in gone))
  }

  lemma AccountsMore(brought: seq<Msg>, left: seq<nat>, box: seq<Msg>, gone: seq<nat>, took: seq<Msg>, more: seq<Msg>)
    requires Accounts(brought, left, box, gone, took)
    ensures Accounts(brought + more, left + seq(|more|, k => |brought| + k), box + more, gone, took)
  {
    var new_ := seq(|more|, k => |brought| + k);
    var left' := left + new_;
    forall k | 0 <= k < |brought + more| ensures k in left' <==> k !in gone {
      if k >= |brought| { assert new_[k - |brought|] == k; }
    }
  }

  lemma AccountsLess(brought: seq<Msg>, left: seq<nat>, box: seq<Msg>, gone: seq<nat>, took: seq<Msg>, i: nat)
    requires Accounts(brought, left, box, gone, took) && i < |box|
    ensures i < |left|
    ensures Accounts(brought, left[..i] + left[i + 1..], box[..i] + box[i + 1..], gone + [left[i]], took + [box[i]])
  {
    var left', box' := left[..i] + left[i + 1..], box[..i] + box[i + 1..];
    forall j | 0 <= j < |left'| ensures left'[j] == left[if j < i then j else j + 1] && left'[j] < |brought| {}
    forall j | 0 <= j < |left'| ensures box'[j] == brought[left'[j]] {}
    forall j, k | 0 <= j < k < |left'| ensures left'[j] < left'[k] {}
    assert left[i] in left && left[i] !in gone;
    forall k | 0 <= k < |brought| ensures k in left' <==> k !in gone + [left[i]] {
      if k in left && k != left[i] {
        var j :| 0 <= j < |left| && left[j] == k;
        assert left'[if j < i then j else j - 1] == k;
      }
    }
  }

  lemma NothingBefore(states: seq<Sys>, steps: seq<Step>, k: nat, pid: Pid)
    requires IsRun(states, steps) && k <= |steps| && pid >= states[k].nextPid
    ensures BroughtBy(states, steps, k, pid) == [] && TookBy(states, steps, k, pid) == []
    decreases k
  {
    hide Inv, Init;
    if k > 0 {
      RunInv(states, steps, k - 1);
      PidsGrow(states, steps, k - 1, k);
      InvPid(states[k - 1], pid);
      NothingBefore(states, steps, k - 1, pid);
    }
  }

  /** Over every run, for every process in the table: its mailbox holds, in the order they were
      brought, exactly the messages brought to it that no receive took, and each receive took
      another one. */
  lemma {:induction false} MailConserved(states: seq<Sys>, steps: seq<Step>, k: nat, pid: Pid)
    returns (left: seq<nat>, gone: seq<nat>)
    requires IsRun(states, steps) && k <= |steps| && pid in states[k].table
    ensures Accounts(BroughtBy(states, steps, k, pid), left, states[k].table[pid].mailbox, gone,
                     TookBy(states, steps, k, pid))
    decreases k
  {
    hide Inv, Apply, Accounts, Brought;
    assert k > 0 by { assert Init(states[0]); }
    RunInv(states, steps, k - 1);
    var s, step := states[k - 1], steps[k - 1];
    assert Link(s, step, states[k]);
    MailStep(s, step, pid);
    if pid !in s.table {
      NewbornMail(states, steps, k, pid);
      return [], [];
    }
    left, gone := MailConserved(states, steps, k - 1, pid);
    var brought, took := BroughtBy(states, steps, k - 1, pid), TookBy(states, steps, k - 1, pid);
    var box := s.table[pid].mailbox;
    if step.RecvTake? && s.cores[step.c].phase.pid == pid {
      AccountsLess(brought, left, box, gone, took, step.i);
      BringsNothing(s, step, pid);
      assert brought + [] == brought;
      left, gone := left[..step.i] + left[step.i + 1..], gone + [left[step.i]];
    } else {
      var more := Brought(s, step, pid);
      AccountsMore(brought, left, box, gone, took, more);
      assert took + [] == took;
      left := left + seq(|more|, j => |brought| + j);
    }
  }

  lemma BringsNothing(s: Sys, step: Step, pid: Pid)
    requires Enabled(s, step) && Unpanicked(s, step) && step.RecvTake?
    ensures Brought(s, step, pid) == []
  {
  }

  lemma NewbornMail(states: seq<Sys>, steps: seq<Step>, k: nat, pid: Pid)
    requires IsRun(states, steps) && 0 < k <= |steps| && pid !in states[k - 1].table && pid in states[k].table
    requires states[k].table[pid].mailbox == []
    ensures Accounts(BroughtBy(states, steps, k, pid), [], states[k].table[pid].mailbox, [],
                     TookBy(states, steps, k, pid))
  {
    hide Inv, Init, Apply;
    RunInv(states, steps, k - 1);
    assert Link(states[k - 1], steps[k - 1], states[k]);
    NoNewKeys(states[k - 1], steps[k - 1], pid);
    NothingBefore(states, steps, k - 1, pid);
  }
}
