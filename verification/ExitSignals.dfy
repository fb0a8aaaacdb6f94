/** Exit signals over whole runs: every process is reaped once, every monitor ref is
    answered once, and abnormal exits reach linked processes. */
module ExitSignals {
  import opened Scheduler
  import opened SchedulerSafety

  /** Dead, or told to die at its next safepoint. */
  predicate Doomed(p: Proc) { p.state.Dead? || p.killPending }

  /** Same processes, links and monitors; nobody escapes doom. */
  ghost predicate Evolves(p: Proc, p': Proc)
  {
    p'.links == p.links && p'.monitors == p.monitors && (Doomed(p) ==> Doomed(p'))
  }

  ghost predicate Quiet(s: Sys, s': Sys)
  {
    && s'.table.Keys == s.table.Keys
    && (forall q :: q in s.table ==> Evolves(s.table[q], s'.table[q]))
    && s'.nextPid == s.nextPid && s'.nextRef == s.nextRef && s'.reaped == s.reaped
  }

  lemma QuietTrans(s: Sys, s': Sys, s'': Sys)
    requires Quiet(s, s') && Quiet(s', s'')
    ensures Quiet(s, s'')
  {
  }

  function Refs(monitors: seq<(nat, Pid)>): (r: seq<nat>)
    ensures |r| == |monitors| && forall i :: 0 <= i < |r| ==> r[i] == monitors[i].0
  {
    if monitors == [] then [] else [monitors[0].0] + Refs(monitors[1..])
  }

  /** A reaped process's monitors are each sent exactly one DOWN, in order. */
  lemma {:induction false} DownAllSends(s: Sys, c: nat, dead: Pid, monitors: seq<(nat, Pid)>, reason: string)
    requires c < |s.cores|
    ensures var s' := DownAll(s, c, dead, monitors, reason); Quiet(s, s') && s'.downs == s.downs + Refs(monitors)
    decreases |monitors|
  {
    hide Quiet, DeliverDown;
    if monitors == [] {
      QuietSelf(s);
    } else {
      var s1 := DeliverDown(s, c, monitors[0].1, monitors[0].0, dead, reason);
      DownQuiet(s, c, monitors[0].1, monitors[0].0, dead, reason);
      DownAllSends(s1, c, dead, monitors[1..], reason);
      var s2 := DownAll(s1, c, dead, monitors[1..], reason);
      assert s2 == DownAll(s, c, dead, monitors, reason);
      assert s.downs + [monitors[0].0] + Refs(monitors[1..]) == s.downs + Refs(monitors);
      QuietTrans(s, s1, s2);
    }
  }

  lemma QuietSelf(s: Sys)
    ensures Quiet(s, s)
  {
  }

  lemma DownQuiet(s: Sys, c: nat, watcher: Pid, ref: nat, dead: Pid, reason: string)
    requires c < |s.cores|
    ensures var s' := DeliverDown(s, c, watcher, ref, dead, reason);
      Quiet(s, s') && s'.downs == s.downs + [ref] && |s'.cores| == |s.cores|
  {
  }

  lemma MarkDooms(s: Sys, c: nat, pid: Pid, reason: string)
    requires c < |s.cores|
    ensures var s' := MarkDead(s, c, pid, reason);
      && Quiet(s, s') && s'.downs == s.downs && |s'.cores| == |s.cores|
      && (pid in s.table ==> Doomed(s'.table[pid]))
  {
  }

  /** Abnormal death dooms every linked process still in the table. */
  lemma {:induction false} MarkAllDooms(s: Sys, c: nat, links: seq<Pid>, reason: string)
    requires c < |s.cores|
    ensures var s' := MarkAll(s, c, links, reason);
      && Quiet(s, s') && s'.downs == s.downs
      && forall q :: q in links && q in s.table ==> Doomed(s'.table[q])
    decreases |links|
  {
    hide MarkDead;
    if links == [] {
      QuietSelf(s);
    } else {
      var s1 := MarkDead(s, c, links[0], reason);
      MarkDooms(s, c, links[0], reason);
      MarkAllDooms(s1, c, links[1..], reason);
      var s' := MarkAll(s1, c, links[1..], reason);
      QuietTrans(s, s1, s');
      forall q | q in links && q in s.table ensures Doomed(s'.table[q]) {
        if q == links[0] { assert Doomed(s1.table[q]); } else { assert q in links[1..]; }
      }
    }
  }

  /** What reaping does to the rest of the system. */
  ghost predicate ReapOf(s: Sys, s': Sys, pid: Pid)
    requires pid in s.table
  {
    && s'.table.Keys == s.table.Keys - {pid}
    && (forall q :: q in s'.table ==> Evolves(s.table[q], s'.table[q]))
    && s'.nextPid == s.nextPid && s'.nextRef == s.nextRef
    && s'.reaped == s.reaped + [(pid, s.table[pid].reason)]
    && s'.downs == s.downs + Refs(s.table[pid].monitors)
    && (s.table[pid].reason != "normal" ==>
      forall q :: q in s.table[pid].links && q in s'.table ==> Doomed(s'.table[q]))
  }

  lemma ReapSends(s: Sys, c: nat, pid: Pid)
    requires c < |s.cores| && pid in s.table
    ensures ReapOf(s, Reap(s, c, pid), pid)
  {
    hide DownAll, MarkAll;
    var p := s.table[pid];
    var s1 := s.(table := s.table - {pid}, reaped := s.reaped + [(pid, p.reason)]);
    DownAllSends(s1, c, pid, p.monitors, p.reason);
    var s2 := DownAll(s1, c, pid, p.monitors, p.reason);
    if p.reason != "normal" {
      MarkAllDooms(s2, c, p.links, p.reason);
      QuietTrans(s1, s2, MarkAll(s2, c, p.links, p.reason));
    }
  }

  /** Steps other than spawning, monitoring and reaping send no signal. */
  lemma QuietStep(s: Sys, step: Step)
    requires Inv(s) && Enabled(s, step) && Unpanicked(s, step)
    requires !step.Spawn? && !step.Monitor? && !step.Take? && !step.Post?
    ensures Quiet(s, Apply(s, step)) && Apply(s, step).downs == s.downs
  {
    hide Inv, DeliverFragment, MarkDead;
    if step.Send? {
      DeliverQuiet(s, step.c, step.to, Data(step.n));
    } else if step.Kill? {
      MarkDooms(s, step.c, step.pid, step.reason);
    }
  }

  lemma DeliverQuiet(s: Sys, c: nat, to: Pid, msg: Msg)
    requires c < |s.cores|
    ensures var s' := DeliverFragment(s, c, to, msg); Quiet(s, s') && s'.downs == s.downs
  {
  }

  /** A lookup or deferred transition either reaps one dead process or sends nothing. */
  lemma TakeOrPost(s: Sys, step: Step)
    requires Inv(s) && Enabled(s, step) && Unpanicked(s, step) && (step.Take? || step.Post?)
    ensures var s' := Apply(s, step);
      || (Quiet(s, s') && s'.downs == s.downs)
      || (exists pid :: pid in s.table && ReapOf(s, s', pid))
  {
    hide Inv, Reap, ReapOf;
    var c := step.c;
    if step.Take? {
      var x := s.cores[c].phase.held;
      if x in s.table && s.table[x].state.Dead? {
        ReapSends(SetPhase(s, c, Sched), c, x);
        ReapOfSame(s, SetPhase(s, c, Sched), Apply(s, step), x);
      }
    } else {
      var Left(x, action) := s.cores[c].phase;
      var p0 := s.table[x];
      var p := if !action.NoAction? && p0.killPending then p0.(state := Dead) else p0;
      if p.state.Dead? {
        ReapSends(Put(SetPhase(s, c, Sched), x, p), c, x);
        ReapOfSame(s, Put(SetPhase(s, c, Sched), x, p), Apply(s, step), x);
      }
    }
  }

  lemma ReapOfSame(s: Sys, s1: Sys, s': Sys, x: Pid)
    requires x in s.table && x in s1.table && ReapOf(s1, s', x)
    requires s1.table == s.table[x := s1.table[x]] && s1.downs == s.downs && s1.reaped == s.reaped
    requires s1.nextPid == s.nextPid && s1.nextRef == s.nextRef
    requires s1.table[x].(state := s.table[x].state) == s.table[x]
    ensures ReapOf(s, s', x)
  {
  }

  ghost predicate Registered(s: Sys, p: Pid, i: nat) { p in s.table && i < |s.table[p].monitors| }

  ghost function RefAt(s: Sys, p: Pid, i: nat): nat
    requires Registered(s, p, i)
  {
    s.table[p].monitors[i].0
  }

  ghost predicate RefOpen(s: Sys, p: Pid, i: nat)
    requires Registered(s, p, i)
  {
    1 <= RefAt(s, p, i) < s.nextRef && RefAt(s, p, i) !in s.downs
  }

  ghost predicate RefsDiffer(s: Sys, p: Pid, i: nat, q: Pid, j: nat)
    requires Registered(s, p, i) && Registered(s, q, j)
  {
    RefAt(s, p, i) == RefAt(s, q, j) ==> p == q && i == j
  }

  ghost predicate Accounted(s: Sys, ref: nat)
  {
    ref in s.downs || exists p, i :: Registered(s, p, i) && RefAt(s, p, i) == ref
  }

  ghost predicate Distinct(s: seq<nat>) { forall i, j :: 0 <= i < j < |s| ==> s[i] != s[j] }

  /** Each ref issued so far is registered at exactly one place or answered exactly once. */
  ghost predicate MonitorInv(s: Sys)
  {
    && s.nextRef >= 1
    && (forall p, i :: Registered(s, p, i) ==> RefOpen(s, p, i))
    && (forall p, i, q, j :: Registered(s, p, i) && Registered(s, q, j) ==> RefsDiffer(s, p, i, q, j))
    && Distinct(s.downs)
    && (forall i :: 0 <= i < |s.downs| ==> 1 <= s.downs[i] < s.nextRef)
    && (forall ref :: 1 <= ref < s.nextRef ==> Accounted(s, ref))
  }

  lemma QuietMonitors(s: Sys, s': Sys)
    requires MonitorInv(s) && Quiet(s, s') && s'.downs == s.downs
    ensures MonitorInv(s')
  {
    forall p, i | Registered(s', p, i) ensures RefOpen(s', p, i) {
      assert Registered(s, p, i) && RefOpen(s, p, i);
    }
    forall p, i, q, j | Registered(s', p, i) && Registered(s', q, j) ensures RefsDiffer(s', p, i, q, j) {
      assert Registered(s, p, i) && Registered(s, q, j) && RefsDiffer(s, p, i, q, j);
    }
    forall ref | 1 <= ref < s'.nextRef ensures Accounted(s', ref) {
      assert Accounted(s, ref);
      if ref !in s.downs {
        var p, i: nat :| Registered(s, p, i) && RefAt(s, p, i) == ref;
        assert Registered(s', p, i) && RefAt(s', p, i) == ref;
      }
    }
  }

  lemma ReapMonitors(s: Sys, s': Sys, x: Pid)
    requires MonitorInv(s) && x in s.table && ReapOf(s, s', x)
    ensures MonitorInv(s')
  {
    var refs := Refs(s.table[x].monitors);
    forall i | 0 <= i < |refs| ensures Registered(s, x, i) && refs[i] == RefAt(s, x, i) && RefOpen(s, x, i) {
      assert Registered(s, x, i);
    }
    forall p, i | Registered(s', p, i) ensures RefOpen(s', p, i) {
      assert Registered(s, p, i) && RefOpen(s, p, i);
      forall j | 0 <= j < |refs| ensures refs[j] != RefAt(s, p, i) {
        assert Registered(s, x, j) && RefsDiffer(s, p, i, x, j);
      }
    }
    forall p, i, q, j | Registered(s', p, i) && Registered(s', q, j) ensures RefsDiffer(s', p, i, q, j) {
      assert Registered(s, p, i) && Registered(s, q, j) && RefsDiffer(s, p, i, q, j);
    }
    DistinctAppend(s, x, refs);
    forall ref | 1 <= ref < s'.nextRef ensures Accounted(s', ref) { ReapAccounts(s, s', x, ref); }
  }

  lemma DistinctAppend(s: Sys, x: Pid, refs: seq<nat>)
    requires MonitorInv(s) && x in s.table && refs == Refs(s.table[x].monitors)
    ensures Distinct(s.downs + refs)
  {
    var all := s.downs + refs;
    forall i, j | 0 <= i < j < |all| ensures all[i] != all[j] {
      var n := |s.downs|;
      if j >= n { assert Registered(s, x, j - n) && RefOpen(s, x, j - n); }
      if i >= n { assert Registered(s, x, i - n) && RefsDiffer(s, x, i - n, x, j - n); }
    }
  }

  lemma ReapAccounts(s: Sys, s': Sys, x: Pid, ref: nat)
    requires MonitorInv(s) && x in s.table && ReapOf(s, s', x) && 1 <= ref < s.nextRef
    ensures Accounted(s', ref)
  {
    assert Accounted(s, ref);
    if ref !in s.downs {
      var p, i: nat :| Registered(s, p, i) && RefAt(s, p, i) == ref;
      if p == x {
        assert Refs(s.table[x].monitors)[i] == ref;
      } else {
        assert Registered(s', p, i) && RefAt(s', p, i) == ref;
      }
    }
  }

  lemma NewMonitor(s: Sys, c: nat, target: Pid)
    requires MonitorInv(s) && Enabled(s, Monitor(c, target))
    ensures MonitorInv(Apply(s, Monitor(c, target)))
  {
    hide DeliverDown;
    var s', ref, me := Apply(s, Monitor(c, target)), s.nextRef, s.cores[c].phase.pid;
    if target in s.table && !s.table[target].state.Dead? {
      MonitorAdded(s, s', target, me);
    } else {
      var s1 := s.(nextRef := ref + 1);
      DownQuiet(s1, c, me, ref, target, "noproc");
      MonitorAnswered(s, s1, s', ref);
    }
  }

  lemma MonitorAdded(s: Sys, s': Sys, target: Pid, me: Pid)
    requires MonitorInv(s) && target in s.table && s'.nextRef == s.nextRef + 1 && s'.downs == s.downs
    requires s'.table == s.table[target := s.table[target].(monitors := s.table[target].monitors + [(s.nextRef, me)])]
    ensures MonitorInv(s')
  {
    var n := |s.table[target].monitors|;
    assert Registered(s', target, n) && RefAt(s', target, n) == s.nextRef;
    forall p, i | Registered(s', p, i) ensures RefOpen(s', p, i) {
      if !(p == target && i == n) { assert Registered(s, p, i) && RefOpen(s, p, i); }
    }
    forall p, i, q, j | Registered(s', p, i) && Registered(s', q, j) ensures RefsDiffer(s', p, i, q, j) {
      if !(p == target && i == n) { assert Registered(s, p, i) && RefOpen(s, p, i); }
      if !(q == target && j == n) { assert Registered(s, q, j) && RefOpen(s, q, j); }
      if !(p == target && i == n) && !(q == target && j == n) { assert RefsDiffer(s, p, i, q, j); }
    }
    forall ref | 1 <= ref < s'.nextRef ensures Accounted(s', ref) {
      if ref < s.nextRef {
        assert Accounted(s, ref);
        if ref !in s.downs {
          var p, i: nat :| Registered(s, p, i) && RefAt(s, p, i) == ref;
          assert Registered(s', p, i) && RefAt(s', p, i) == ref;
        }
      }
    }
  }

  lemma MonitorAnswered(s: Sys, s1: Sys, s': Sys, ref: nat)
    requires MonitorInv(s) && ref == s.nextRef && s1 == s.(nextRef := ref + 1) && Quiet(s1, s')
      && s'.downs == s.downs + [ref]
    ensures MonitorInv(s')
  {
    forall p, i | Registered(s', p, i) ensures RefOpen(s', p, i) {
      assert Registered(s, p, i) && RefOpen(s, p, i);
    }
    forall p, i, q, j | Registered(s', p, i) && Registered(s', q, j) ensures RefsDiffer(s', p, i, q, j) {
      assert Registered(s, p, i) && Registered(s, q, j) && RefsDiffer(s, p, i, q, j);
    }
    forall r | 1 <= r < s'.nextRef ensures Accounted(s', r) {
      if r < s.nextRef {
        assert Accounted(s, r);
        if r !in s.downs {
          var p, i: nat :| Registered(s, p, i) && RefAt(s, p, i) == r;
          assert Registered(s', p, i) && RefAt(s', p, i) == r;
        }
      } else {
        assert s'.downs[|s.downs|] == r;
      }
    }
  }

  lemma SpawnMonitors(s: Sys, c: nat, link: bool)
    requires MonitorInv(s) && Inv(s) && Enabled(s, Spawn(c, link))
    ensures MonitorInv(Apply(s, Spawn(c, link)))
  {
    hide Inv;
    var s', child := Apply(s, Spawn(c, link)), s.nextPid;
    InvPid(s, child);
    forall p, i | Registered(s', p, i) ensures RefOpen(s', p, i) {
      assert Registered(s, p, i) && RefOpen(s, p, i);
    }
    forall p, i, q, j | Registered(s', p, i) && Registered(s', q, j) ensures RefsDiffer(s', p, i, q, j) {
      assert Registered(s, p, i) && Registered(s, q, j) && RefsDiffer(s, p, i, q, j);
    }
    forall ref | 1 <= ref < s'.nextRef ensures Accounted(s', ref) {
      assert Accounted(s, ref);
      if ref !in s.downs {
        var p, i: nat :| Registered(s, p, i) && RefAt(s, p, i) == ref;
        assert Registered(s', p, i) && RefAt(s', p, i) == ref;
      }
    }
  }

  ghost predicate WasReaped(s: Sys, pid: Pid) { exists i :: 0 <= i < |s.reaped| && s.reaped[i].0 == pid }

  ghost predicate ReapedAbnormally(s: Sys, pid: Pid)
  {
    exists i :: 0 <= i < |s.reaped| && s.reaped[i].0 == pid && s.reaped[i].1 != "normal"
  }

  ghost predicate Linked(s: Sys, p: Pid, q: Pid) { p in s.table && q in s.table[p].links }

  /** A link is mutual while both live; an abnormal end of one dooms the other. */
  ghost predicate LinkOk(s: Sys, p: Pid, q: Pid)
    requires Linked(s, p, q)
  {
    && q != p && q < s.nextPid
    && (q in s.table ==> p in s.table[q].links)
    && (ReapedAbnormally(s, q) ==> Doomed(s.table[p]))
  }

  /** Every pid issued is in the table or was reaped, not both, and never twice. */
  ghost predicate ReapInv(s: Sys)
  {
    && s.nextPid >= 1
    && (forall i :: 0 <= i < |s.reaped| ==> s.reaped[i].0 !in s.table && s.reaped[i].0 < s.nextPid)
    && (forall i, j :: 0 <= i < j < |s.reaped| ==> s.reaped[i].0 != s.reaped[j].0)
    && (forall pid :: 1 <= pid < s.nextPid ==> pid in s.table || WasReaped(s, pid))
  }

  ghost predicate LinkInv(s: Sys)
  {
    forall p, q :: Linked(s, p, q) ==> LinkOk(s, p, q)
  }

  lemma QuietLinks(s: Sys, s': Sys)
    requires LinkInv(s) && ReapInv(s) && Quiet(s, s')
    ensures LinkInv(s') && ReapInv(s')
  {
    forall p, q | Linked(s', p, q) ensures LinkOk(s', p, q) {
      assert Linked(s, p, q) && LinkOk(s, p, q) && Evolves(s.table[p], s'.table[p]);
      if q in s.table { assert Evolves(s.table[q], s'.table[q]); }
    }
    forall pid | 1 <= pid < s'.nextPid ensures pid in s'.table || WasReaped(s', pid) {
      if pid !in s.table { assert WasReaped(s, pid); }
    }
  }

  lemma ReapLinks(s: Sys, s': Sys, x: Pid)
    requires LinkInv(s) && ReapInv(s) && x in s.table && x < s.nextPid && ReapOf(s, s', x)
    ensures LinkInv(s') && ReapInv(s')
  {
    forall p, q | Linked(s', p, q) ensures LinkOk(s', p, q) {
      assert Linked(s, p, q) && LinkOk(s, p, q) && Evolves(s.table[p], s'.table[p]);
      if q in s'.table { assert Evolves(s.table[q], s'.table[q]); }
      if ReapedAbnormally(s', q) && !ReapedAbnormally(s, q) { assert q == x; }
    }
    assert s'.reaped[|s.reaped|].0 == x;
    forall pid | 1 <= pid < s'.nextPid ensures pid in s'.table || WasReaped(s', pid) {
      if pid !in s.table {
        var i :| 0 <= i < |s.reaped| && s.reaped[i].0 == pid;
        assert s'.reaped[i].0 == pid;
      }
    }
  }

  lemma SpawnLinks(s: Sys, c: nat, link: bool)
    requires LinkInv(s) && ReapInv(s) && Inv(s) && Enabled(s, Spawn(c, link))
    ensures LinkInv(Apply(s, Spawn(c, link))) && ReapInv(Apply(s, Spawn(c, link)))
  {
    hide Inv;
    var s', child := Apply(s, Spawn(c, link)), s.nextPid;
    InvPid(s, child);
    InvCore(s, c);
    if s.cores[c].phase.Exec? { InvPid(s, s.cores[c].phase.pid); }
    forall p: Pid, q: Pid | Linked(s', p, q) ensures LinkOk(s', p, q) {
      if Linked(s, p, q) { assert LinkOk(s, p, q); }
      assert ReapedAbnormally(s', q) ==> WasReaped(s, q);
      if p == child {
        assert link && q == s.cores[c].phase.pid && q in s.table;
        assert s'.table[q].links[|s.table[q].links|] == child;
      } else if q == child {
        assert link && p == s.cores[c].phase.pid;
        assert s'.table[child].links == [p];
      }
    }
    forall pid | 1 <= pid < s'.nextPid ensures pid in s'.table || WasReaped(s', pid) {
      if pid < child && pid !in s.table { assert WasReaped(s, pid); }
    }
  }

  ghost predicate SignalInv(s: Sys) { MonitorInv(s) && LinkInv(s) && ReapInv(s) }

  lemma MonitorLinks(s: Sys, c: nat, target: Pid)
    requires LinkInv(s) && ReapInv(s) && Enabled(s, Monitor(c, target))
    ensures LinkInv(Apply(s, Monitor(c, target))) && ReapInv(Apply(s, Monitor(c, target)))
  {
    hide DeliverDown;
    var s', me := Apply(s, Monitor(c, target)), s.cores[c].phase.pid;
    var s1 := s.(nextRef := s.nextRef + 1);
    if !(target in s.table && !s.table[target].state.Dead?) {
      DownQuiet(s1, c, me, s.nextRef, target, "noproc");
    }
    forall p: Pid, q: Pid | Linked(s', p, q) ensures LinkOk(s', p, q) {
      assert Linked(s, p, q) && LinkOk(s, p, q);
    }
    forall pid | 1 <= pid < s'.nextPid ensures pid in s'.table || WasReaped(s', pid) {
      if pid !in s.table { assert WasReaped(s, pid); }
    }
  }

  lemma SignalsKept(s: Sys, step: Step)
    requires Inv(s) && SignalInv(s) && Enabled(s, step) && Unpanicked(s, step)
    ensures SignalInv(Apply(s, step))
  {
    hide Inv, MonitorInv, LinkInv, ReapInv, Quiet, ReapOf;
    var s' := Apply(s, step);
    if step.Spawn? {
      SpawnMonitors(s, step.c, step.link);
      SpawnLinks(s, step.c, step.link);
    } else if step.Monitor? {
      NewMonitor(s, step.c, step.target);
      MonitorLinks(s, step.c, step.target);
    } else {
      if step.Take? || step.Post? { TakeOrPost(s, step); } else { QuietStep(s, step); }
      if Quiet(s, s') && s'.downs == s.downs {
        QuietMonitors(s, s');
        QuietLinks(s, s');
      } else {
        var x: Pid :| x in s.table && ReapOf(s, s', x);
        InvPid(s, x);
        ReapMonitors(s, s', x);
        ReapLinks(s, s', x);
      }
    }
  }

  lemma {:induction false} RunSignals(states: seq<Sys>, steps: seq<Step>, i: nat)
    requires IsRun(states, steps) && i < |states|
    ensures SignalInv(states[i])
  {
    if i > 0 {
      hide Inv, Init, SignalInv;
      RunSignals(states, steps, i - 1);
      RunInv(states, steps, i - 1);
      assert Link(states[i - 1], steps[i - 1], states[i]);
      SignalsKept(states[i - 1], steps[i - 1]);
    }
  }

  /** Along every run: a pid issued is alive or was reaped exactly once; a monitor ref
      issued is registered at exactly one place or was answered exactly once; links are
      mutual; and a process linked to one that ended abnormally is doomed. */
  lemma SignalConservation(states: seq<Sys>, steps: seq<Step>, i: nat)
    requires IsRun(states, steps) && i < |states|
    ensures var s := states[i];
      && (forall pid :: 1 <= pid < s.nextPid ==> (pid in s.table <==> !WasReaped(s, pid)))
      && (forall a, b :: 0 <= a < b < |s.reaped| ==> s.reaped[a].0 != s.reaped[b].0)
      && (forall ref :: 1 <= ref < s.nextRef ==> Accounted(s, ref))
      && (forall p: Pid, k: nat :: Registered(s, p, k) ==> RefOpen(s, p, k))
      && (forall p: Pid, k: nat, q: Pid, l: nat ::
        Registered(s, p, k) && Registered(s, q, l) ==> RefsDiffer(s, p, k, q, l))
      && Distinct(s.downs)
      && (forall p: Pid, q: Pid :: Linked(s, p, q) ==> LinkOk(s, p, q))
  {
    RunSignals(states, steps, i);
  }

  /** What one step may do to a process told to die: it stays told, it is not scheduled or
      put to sleep, and no message is taken from its mailbox. */
  ghost predicate StaysDoomed(p: Proc, p': Proc)
  {
    p'.killPending && (p'.state.Running? || p'.state.Dead?) && p.mailbox <= p'.mailbox
  }

  lemma DoomedStep(s: Sys, step: Step, pid: Pid)
    requires Inv(s) && Enabled(s, step) && Unpanicked(s, step) && pid in s.table && s.table[pid].killPending
    ensures pid in Apply(s, step).table ==> StaysDoomed(s.table[pid], Apply(s, step).table[pid])
  {
    hide Inv, Tokens, OnCores, HasTimer, DeliverFragment, MarkDead, Reap, ApplyTake, ApplyPost, ApplySpawn, ApplyWake;
    InvPid(s, pid);
    match step
    case Send(c, to, n) => DeliverDoomed(s, c, to, Data(n), pid);
    case Kill(c, x, reason) => MarkDoomed(s, c, x, reason, pid);
    case Monitor(c, target) => DeliverDoomed(s.(nextRef := s.nextRef + 1), c, s.cores[c].phase.pid,
      Down(s.nextRef, target, "noproc"), pid);
    case Take(c) => TakeDoomed(s, c, pid);
    case Post(c) => PostDoomed(s, c, pid);
    case Spawn(c, link) => SpawnDoomed(s, c, link, pid);
    case WakeOne(c) => WakeDoomed(s, c, pid);
    case _ =>
  }

  lemma SpawnDoomed(s: Sys, c: nat, link: bool, pid: Pid)
    requires Inv(s) && Enabled(s, Spawn(c, link)) && pid in s.table && s.table[pid].killPending
    ensures pid in Apply(s, Spawn(c, link)).table ==> StaysDoomed(s.table[pid], Apply(s, Spawn(c, link)).table[pid])
  {
    hide Inv, Tokens, OnCores, HasTimer;
    InvPid(s, pid);
    InvPid(s, s.nextPid);
  }

  lemma WakeDoomed(s: Sys, c: nat, pid: Pid)
    requires Inv(s) && Enabled(s, WakeOne(c)) && pid in s.table && s.table[pid].killPending
    ensures pid in Apply(s, WakeOne(c)).table ==> StaysDoomed(s.table[pid], Apply(s, WakeOne(c)).table[pid])
  {
    hide Inv, Tokens, OnCores, HasTimer;
    InvPid(s, pid);
  }

  lemma TakeDoomed(s: Sys, c: nat, pid: Pid)
    requires Inv(s) && Enabled(s, Take(c)) && Unpanicked(s, Take(c)) && pid in s.table && s.table[pid].killPending
    ensures pid in Apply(s, Take(c)).table ==> StaysDoomed(s.table[pid], Apply(s, Take(c)).table[pid])
  {
    hide Inv, Tokens, OnCores, HasTimer, Reap;
    InvPid(s, pid);
    var x := s.cores[c].phase.held;
    if x in s.table && s.table[x].state.Dead? { ReapDoomed(SetPhase(s, c, Sched), c, x, pid); }
  }

  lemma PostDoomed(s: Sys, c: nat, pid: Pid)
    requires Inv(s) && Enabled(s, Post(c)) && Unpanicked(s, Post(c)) && pid in s.table && s.table[pid].killPending
    ensures pid in Apply(s, Post(c)).table ==> StaysDoomed(s.table[pid], Apply(s, Post(c)).table[pid])
  {
    hide Inv, Tokens, OnCores, HasTimer, Reap;
    InvPid(s, pid);
    var Left(x, action) := s.cores[c].phase;
    var p0 := s.table[x];
    var p := if !action.NoAction? && p0.killPending then p0.(state := Dead) else p0;
    InvCore(s, c);
    if p.state.Dead? { ReapDoomed(Put(SetPhase(s, c, Sched), x, p), c, x, pid); }
  }

  lemma DeliverDoomed(s: Sys, c: nat, to: Pid, msg: Msg, pid: Pid)
    requires c < |s.cores| && pid in s.table && s.table[pid].killPending
      && (s.table[pid].state.Running? || s.table[pid].state.Dead?)
    ensures var s' := DeliverFragment(s, c, to, msg);
      pid in s'.table && StaysDoomed(s.table[pid], s'.table[pid]) && |s'.cores| == |s.cores|
  {
  }

  lemma MarkDoomed(s: Sys, c: nat, x: Pid, reason: string, pid: Pid)
    requires c < |s.cores| && pid in s.table && s.table[pid].killPending
      && (s.table[pid].state.Running? || s.table[pid].state.Dead?)
    ensures var s' := MarkDead(s, c, x, reason);
      pid in s'.table && StaysDoomed(s.table[pid], s'.table[pid]) && |s'.cores| == |s.cores|
  {
  }

  lemma {:induction false} DownAllDoomed(s: Sys, c: nat, dead: Pid, monitors: seq<(nat, Pid)>, reason: string, pid: Pid)
    requires c < |s.cores| && pid in s.table && s.table[pid].killPending
      && (s.table[pid].state.Running? || s.table[pid].state.Dead?)
    ensures var s' := DownAll(s, c, dead, monitors, reason); pid in s'.table && StaysDoomed(s.table[pid], s'.table[pid])
    decreases |monitors|
  {
    hide DeliverFragment;
    if monitors != [] {
      DeliverDoomed(s, c, monitors[0].1, Down(monitors[0].0, dead, reason), pid);
      DownAllDoomed(DeliverDown(s, c, monitors[0].1, monitors[0].0, dead, reason), c, dead, monitors[1..], reason, pid);
    }
  }

  lemma {:induction false} MarkAllDoomed(s: Sys, c: nat, links: seq<Pid>, reason: string, pid: Pid)
    requires c < |s.cores| && pid in s.table && s.table[pid].killPending
      && (s.table[pid].state.Running? || s.table[pid].state.Dead?)
    ensures var s' := MarkAll(s, c, links, reason); pid in s'.table && StaysDoomed(s.table[pid], s'.table[pid])
    decreases |links|
  {
    hide MarkDead;
    if links != [] {
      MarkDoomed(s, c, links[0], reason, pid);
      MarkAllDoomed(MarkDead(s, c, links[0], reason), c, links[1..], reason, pid);
    }
  }

  lemma ReapDoomed(s: Sys, c: nat, x: Pid, pid: Pid)
    requires c < |s.cores| && x in s.table && pid in s.table && s.table[pid].killPending
    requires s.table[pid].state.Running? || s.table[pid].state.Dead?
    ensures var s' := Reap(s, c, x); pid in s'.table ==> pid != x && StaysDoomed(s.table[pid], s'.table[pid])
  {
    hide DownAll, MarkAll;
    ReapMembers(s, c, x);
    if pid != x {
      var p := s.table[x];
      var s1 := s.(table := s.table - {x}, reaped := s.reaped + [(x, p.reason)]);
      DownAllDoomed(s1, c, x, p.monitors, p.reason, pid);
      var s2 := DownAll(s1, c, x, p.monitors, p.reason);
      if p.reason != "normal" { MarkAllDoomed(s2, c, p.links, p.reason, pid); }
    }
  }

  /** From the moment a process is told to die, for the rest of every run, it is never
      Runnable or Waiting again and no message leaves its mailbox. */
  lemma {:induction false} KilledStaysKilled(states: seq<Sys>, steps: seq<Step>, i: nat, j: nat, pid: Pid)
    requires IsRun(states, steps) && i <= j < |states|
    requires pid in states[i].table && states[i].table[pid].killPending && pid in states[j].table
    ensures StaysDoomed(states[i].table[pid], states[j].table[pid])
    decreases j
  {
    hide Inv, Init, Tokens, OnCores, HasTimer;
    RunInv(states, steps, i);
    InvPid(states[i], pid);
    if i < j {
      RunInv(states, steps, j - 1);
      assert Link(states[j - 1], steps[j - 1], states[j]);
      PidsGrow(states, steps, i, j - 1);
      NeverComesBack(states, steps, j - 1, j, pid);
      KilledStaysKilled(states, steps, i, j - 1, pid);
      DoomedStep(states[j - 1], steps[j - 1], pid);
    }
  }

  /** Pids are never reused: one that is in the table was there since it was issued. */
  lemma {:induction false} NeverComesBack(states: seq<Sys>, steps: seq<Step>, i: nat, j: nat, pid: Pid)
    requires IsRun(states, steps) && i <= j < |states| && pid in states[j].table && pid < states[i].nextPid
    ensures pid in states[i].table
    decreases j
  {
    hide Inv, Init, Apply;
    if i < j {
      RunInv(states, steps, j - 1);
      assert Link(states[j - 1], steps[j - 1], states[j]);
      NoNewKeys(states[j - 1], steps[j - 1], pid);
      PidsGrow(states, steps, i, j - 1);
      NeverComesBack(states, steps, i, j - 1, pid);
    }
  }

  lemma {:induction false} PidsGrow(states: seq<Sys>, steps: seq<Step>, i: nat, j: nat)
    requires IsRun(states, steps) && i <= j < |states|
    ensures states[i].nextPid <= states[j].nextPid
    decreases j
  {
    hide Inv, Init, Apply;
    if i < j {
      PidsGrow(states, steps, i, j - 1);
      RunInv(states, steps, j - 1);
      assert Link(states[j - 1], steps[j - 1], states[j]);
      PidsGrowStep(states[j - 1], steps[j - 1]);
    }
  }

  lemma PidsGrowStep(s: Sys, step: Step)
    requires Inv(s) && Enabled(s, step) && Unpanicked(s, step)
    ensures s.nextPid <= Apply(s, step).nextPid
  {
    hide Inv;
    if step.Take? || step.Post? { TakeOrPost(s, step); }
  }

  lemma NoNewKeys(s: Sys, step: Step, pid: Pid)
    requires Inv(s) && Enabled(s, step) && Unpanicked(s, step) && pid in Apply(s, step).table
    ensures pid in s.table || (step.Spawn? && pid == s.nextPid)
  {
    hide Inv;
    if step.Take? || step.Post? { TakeOrPost(s, step); }
  }
}
