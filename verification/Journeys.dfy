/** Steps taken one after another by one core: what each excursion of a process comes to, and
    in which order queues and timers serve. */
module Journeys {
  import opened Basics
  import opened Scheduler
  import opened SchedulerSafety

  /** The state after `steps`, if each can be taken in turn. */
  ghost function After(s: Sys, steps: seq<Step>): Option<Sys>
    decreases |steps|
  {
    if steps == [] then Some(s)
    else if !Enabled(s, steps[0]) || !Unpanicked(s, steps[0]) then None
    else After(Apply(s, steps[0]), steps[1..])
  }

  lemma AfterOne(s: Sys, a: Step)
    requires Enabled(s, a) && Unpanicked(s, a)
    ensures After(s, [a]) == Some(Apply(s, a))
  {
    assert [a][1..] == [];
    assert After(Apply(s, a), []) == Some(Apply(s, a));
  }

  lemma AfterMore(s: Sys, a: Step, rest: seq<Step>)
    requires Enabled(s, a) && Unpanicked(s, a)
    ensures After(s, [a] + rest) == After(Apply(s, a), rest)
  {
    assert ([a] + rest)[1..] == rest;
  }

  lemma AfterThree(s: Sys, a: Step, b: Step, d: Step)
    requires Enabled(s, a) && Unpanicked(s, a)
    requires var s1 := Apply(s, a); Enabled(s1, b) && Unpanicked(s1, b)
    requires var s2 := Apply(Apply(s, a), b); Enabled(s2, d) && Unpanicked(s2, d)
    ensures After(s, [a, b, d]) == Some(Apply(Apply(Apply(s, a), b), d))
  {
    hide Enabled, Apply;
    assert [a, b, d] == [a] + ([b] + [d]);
    AfterMore(s, a, [b] + [d]);
    AfterMore(Apply(s, a), b, [d]);
    AfterOne(Apply(Apply(s, a), b), d);
  }

  /** The core's part of a state: its queue and what it is doing. */
  ghost predicate CoreIs(s: Sys, c: nat, runq: seq<Pid>, phase: Phase)
  {
    c < |s.cores| && s.cores[c] == Core(runq, phase)
  }

  /** Only core `c` and process `pid` differ. */
  ghost predicate OnlyThese(s: Sys, s': Sys, c: nat, pid: Pid)
  {
    && |s'.cores| == |s.cores| && (forall d :: 0 <= d < |s.cores| && d != c ==> s'.cores[d] == s.cores[d])
    && s'.table.Keys == s.table.Keys && forall q :: q in s.table && q != pid ==> s'.table[q] == s.table[q]
  }

  /** A core with nothing to do may pop its own queue or rob another's, send, kill and spawn, and
      the first also look at the wheel. */
  lemma IdleChoices(s: Sys, c: nat, v: nat, pid: Pid, n: nat, reason: string)
    requires c < |s.cores|
    ensures Enabled(s, PopOwn(c)) <==> s.cores[c].phase.Sched? && |s.cores[c].runq| > 0
    ensures Enabled(s, Steal(c, v)) <==>
      s.cores[c].phase.Sched? && c != v && v < |s.cores| && |s.cores[v].runq| > 0
    ensures Enabled(s, TakeDue(c)) <==> s.cores[c].phase.Sched? && c == 0
    ensures s.cores[c].phase.Sched? ==>
      Enabled(s, Send(c, pid, n)) && Enabled(s, Kill(c, pid, reason)) && Enabled(s, Spawn(c, false))
  {
  }

  /** Every phase between has its one way on, and time never stops. */
  lemma OneWayOn(s: Sys, c: nat)
    requires c < |s.cores|
    ensures Enabled(s, Take(c)) <==> s.cores[c].phase.Held?
    ensures Enabled(s, SwitchIn(c)) <==> s.cores[c].phase.Switching?
    ensures Enabled(s, PushTimer(c)) <==> s.cores[c].phase.Blocking?
    ensures Enabled(s, EnqueueChild(c)) <==> s.cores[c].phase.Spawned?
    ensures Enabled(s, Save(c)) <==> s.cores[c].phase.Leaving?
    ensures Enabled(s, Post(c)) <==> s.cores[c].phase.Left?
    ensures Enabled(s, WakeOne(c)) <==> s.cores[c].phase.Due?
    ensures Enabled(s, Tick)
  {
  }

  /** An executing process may do anything, but receives only alive, only what is there, and ends
      in a receive only if it was told to die. */
  lemma ProcessChoices(s: Sys, c: nat, pid: Pid, n: nat, reason: string, link: bool, deadline: Option<nat>)
    requires Inv(s) && c < |s.cores| && s.cores[c].phase.Exec?
    ensures Enabled(s, Yield(c)) && Enabled(s, Exit(c, reason)) && Enabled(s, Monitor(c, pid))
    ensures Enabled(s, Spawn(c, link)) && Enabled(s, Send(c, pid, n)) && Enabled(s, Kill(c, pid, reason))
    ensures var p := s.table[Owned(s, c)];
      && (Enabled(s, RecvKilled(c)) <==> p.killPending)
      && (Enabled(s, RecvMiss(c, deadline)) <==> !p.killPending)
      && (Enabled(s, RecvTake(c, n)) <==> !p.killPending && n < |p.mailbox|)
  {
    hide Inv;
    InvCore(s, c);
  }

  /** A core's own queue serves the oldest entry, which runs if it is still runnable. */
  lemma OldestRuns(s: Sys, c: nat)
    requires Inv(s) && Enabled(s, PopOwn(c))
    requires var pid := s.cores[c].runq[0]; pid in s.table && s.table[pid].state.Runnable?
    ensures var pid, end := s.cores[c].runq[0], After(s, [PopOwn(c), Take(c), SwitchIn(c)]);
      && end.Some? && CoreIs(end.value, c, s.cores[c].runq[1..], Exec(pid)) && OnlyThese(s, end.value, c, pid)
      && end.value.table[pid] == s.table[pid].(state := Running, saved := false)
  {
    hide Inv;
    AfterThree(s, PopOwn(c), Take(c), SwitchIn(c));
  }

  /** A thief takes the youngest. */
  lemma YoungestStolen(s: Sys, c: nat, v: nat)
    requires Inv(s) && Enabled(s, Steal(c, v))
    ensures var s' := Apply(s, Steal(c, v)); var q := s.cores[v].runq;
      && CoreIs(s', c, s.cores[c].runq, Held(q[|q| - 1])) && CoreIs(s', v, q[..|q| - 1], s.cores[v].phase)
      && s'.table == s.table
  {
    hide Inv;
  }

  /** A yielding process goes to the end of its core's queue. */
  lemma YieldRequeues(s: Sys, c: nat)
    requires Inv(s) && Enabled(s, Yield(c)) && !s.table[Owned(s, c)].killPending
    ensures var pid, end := Owned(s, c), After(s, [Yield(c), Save(c), Post(c)]);
      && end.Some? && CoreIs(end.value, c, s.cores[c].runq + [pid], Sched) && OnlyThese(s, end.value, c, pid)
      && end.value.table[pid] == s.table[pid].(state := Runnable, saved := true)
  {
    hide Inv;
    InvCore(s, c);
    AfterThree(s, Yield(c), Save(c), Post(c));
  }

  /** The process executing on a core. */
  ghost function Owned(s: Sys, c: nat): (pid: Pid)
    requires Inv(s) && c < |s.cores| && s.cores[c].phase.Exec?
    ensures pid in s.table && s.table[pid].state.Running?
  {
    InvCore(s, c);
    s.cores[c].phase.pid
  }

  /** One told to die while it ran does not come back from a yield: it is reaped. */
  lemma DoomedIsReaped(s: Sys, c: nat)
    requires Inv(s) && Enabled(s, Yield(c)) && s.table[Owned(s, c)].killPending
    ensures var pid, end := Owned(s, c), After(s, [Yield(c), Save(c), Post(c)]);
      end.Some? && pid !in end.value.table && end.value.reaped == s.reaped + [(pid, s.table[pid].reason)]
  {
    hide Inv, DownAll, MarkAll;
    InvCore(s, c);
    AfterThree(s, Yield(c), Save(c), Post(c));
    var pid := Owned(s, c);
    var s2 := Apply(Apply(s, Yield(c)), Save(c));
    var s3 := Put(SetPhase(s2, c, Sched), pid, s2.table[pid].(state := Dead));
    ReapRecords(s3, c, pid);
  }

  lemma ReapRecords(s: Sys, c: nat, pid: Pid)
    requires c < |s.cores| && pid in s.table
    ensures pid !in Reap(s, c, pid).table && Reap(s, c, pid).reaped == s.reaped + [(pid, s.table[pid].reason)]
  {
    hide DownAll, MarkAll;
    var p := s.table[pid];
    var s1 := s.(table := s.table - {pid}, reaped := s.reaped + [(pid, p.reason)]);
    ReapMembers(s, c, pid);
    DownsRecord(s1, c, pid, p.monitors, p.reason);
    KillsRecord(DownAll(s1, c, pid, p.monitors, p.reason), c, p.links, p.reason);
  }

  lemma {:induction false} DownsRecord(s: Sys, c: nat, dead: Pid, monitors: seq<(nat, Pid)>, reason: string)
    requires c < |s.cores|
    ensures DownAll(s, c, dead, monitors, reason).reaped == s.reaped
    decreases |monitors|
  {
    if monitors != [] {
      DownsRecord(DeliverDown(s, c, monitors[0].1, monitors[0].0, dead, reason), c, dead, monitors[1..], reason);
    }
  }

  lemma {:induction false} KillsRecord(s: Sys, c: nat, links: seq<Pid>, reason: string)
    requires c < |s.cores|
    ensures MarkAll(s, c, links, reason).reaped == s.reaped
    decreases |links|
  {
    if links != [] { KillsRecord(MarkDead(s, c, links[0], reason), c, links[1..], reason); }
  }

  /** A process that exits is reaped with the reason it gave. */
  lemma ExitIsReaped(s: Sys, c: nat, reason: string)
    requires Inv(s) && Enabled(s, Exit(c, reason))
    ensures var pid, end := Owned(s, c), After(s, [Exit(c, reason), Save(c), Post(c)]);
      end.Some? && pid !in end.value.table && end.value.reaped == s.reaped + [(pid, reason)]
  {
    hide Inv, DownAll, MarkAll;
    InvCore(s, c);
    AfterThree(s, Exit(c, reason), Save(c), Post(c));
    var pid := Owned(s, c);
    var s2 := Apply(Apply(s, Exit(c, reason)), Save(c));
    ReapRecords(Put(SetPhase(s2, c, Sched), pid, s2.table[pid]), c, pid);
  }

  /** A receive that finds nothing waits, with its timer set; with mail by then it is runnable
      again at once. */
  lemma EmptyReceiveWaits(s: Sys, c: nat, deadline: Option<nat>)
    requires Inv(s) && Enabled(s, RecvMiss(c, deadline))
    ensures var pid, mid := Owned(s, c), Apply(s, RecvMiss(c, deadline));
      var end := After(mid, [PushTimer(c), Save(c), Post(c)]); var p := s.table[pid];
      && Enabled(mid, PushTimer(c)) && end.Some? && OnlyThese(s, end.value, c, pid)
      && end.value.wheel == (if deadline.Some? then s.wheel + [(deadline.value, pid)] else s.wheel)
      && end.value.table[pid] == (if p.mailbox == [] then p.(state := Waiting, saved := true, deadline := deadline)
                                  else p.(state := Runnable, saved := true))
      && CoreIs(end.value, c, if p.mailbox == [] then s.cores[c].runq else s.cores[c].runq + [pid], Sched)
  {
    hide Inv;
    InvCore(s, c);
    AfterThree(Apply(s, RecvMiss(c, deadline)), PushTimer(c), Save(c), Post(c));
  }

  /** A spawned process is runnable at the end of its spawner's queue, and the spawner goes on. */
  lemma ChildIsQueued(s: Sys, c: nat, link: bool)
    requires Inv(s) && Enabled(s, Spawn(c, link))
    ensures var s1, child := Apply(s, Spawn(c, link)), s.nextPid; var s2 := Apply(s1, EnqueueChild(c));
      && Enabled(s1, EnqueueChild(c)) && CoreIs(s2, c, s.cores[c].runq + [child], s.cores[c].phase)
      && child in s2.table && s2.table[child].state.Runnable? && s2.nextPid == child + 1
      && forall d :: 0 <= d < |s.cores| && d != c ==> s2.cores[d] == s.cores[d]
  {
    hide Inv;
  }

  /** Taking what is due leaves no entry of the wheel that is, and takes no other. */
  lemma {:induction false} DueTaken(wheel: seq<(nat, Pid)>, now: nat)
    ensures forall t: nat, pid: Pid :: (t, pid) in Unexpired(wheel, now) <==> (t, pid) in wheel && t > now
    ensures forall pid: Pid :: pid in Expired(wheel, now) <==> exists t: nat :: (t, pid) in wheel && t <= now
    decreases |wheel|
  {
    if wheel != [] {
      DueTaken(wheel[1..], now);
      assert wheel == [wheel[0]] + wheel[1..];
      forall pid: Pid ensures pid in Expired(wheel, now) <==> exists t: nat :: (t, pid) in wheel && t <= now {
        if pid in Expired(wheel[1..], now) {
          var t: nat :| (t, pid) in wheel[1..] && t <= now;
          assert (t, pid) in wheel;
        }
        if wheel[0].0 <= now && wheel[0].1 == pid { assert (wheel[0].0, pid) in wheel; }
      }
    }
  }

  /** At the head of the due list a waiting process becomes runnable at the end of the queue; one
      caught on a core is looked at again the next tick; anything else is dropped. */
  lemma DueIsWoken(s: Sys, c: nat)
    requires Inv(s) && Enabled(s, WakeOne(c)) && s.cores[c].phase.due != []
    ensures var Due(at, due) := s.cores[c].phase; var pid, s' := due[0], Apply(s, WakeOne(c));
      var waits := pid in s.table && s.table[pid].state.Waiting?;
      && OnlyThese(s, s', c, pid)
      && CoreIs(s', c, s.cores[c].runq + (if waits then [pid] else []), Due(at, due[1..]))
      && (waits ==> s'.table[pid] == s.table[pid].(state := Runnable))
      && (!waits && pid in s.table ==> s'.table[pid] == s.table[pid])
      && s'.wheel == s.wheel + (if pid in s.table && s.table[pid].state.Running? then [(at + 1, pid)] else [])
  {
    hide Inv;
    assert s.cores[c].runq + [] == s.cores[c].runq && s.wheel + [] == s.wheel;
  }

  /** The whole of a timeout: once its tick has come, an entry of the wheel is on the due list. */
  lemma DeadlineIsDue(s: Sys, pid: Pid, t: nat)
    requires Enabled(s, TakeDue(0)) && (t, pid) in s.wheel && t <= s.now
    ensures var s' := Apply(s, TakeDue(0));
      s'.cores[0].phase.Due? && s'.cores[0].phase.at == s.now && pid in s'.cores[0].phase.due && (t, pid) !in s'.wheel
  {
    DueTaken(s.wheel, s.now);
  }

  lemma TickCounts(s: Sys)
    ensures Apply(s, Tick) == s.(now := s.now + 1)
  {
  }
}
