/** What every step of the scheduler keeps, and so what holds in every reachable state. */
module SchedulerSafety {
  import opened Basics
  import opened Scheduler

  /** The pid a core's phase belongs to, from being marked Running to its deferred
      transition. */
  function Owner(phase: Phase): Option<Pid>
  {
    match phase
    case Switching(pid) => Some(pid)
    case Exec(pid) => Some(pid)
    case Spawned(parent, _) => parent
    case Blocking(pid, _) => Some(pid)
    case Leaving(pid, _) => Some(pid)
    case Left(pid, _) => Some(pid)
    case _ => None
  }

  function One(b: bool): nat { if b then 1 else 0 }

  /** Scheduling tokens a core holds for a pid: queue entries, a popped pid, an owed entry. */
  ghost function CoreTokens(k: Core, pid: Pid): nat
  {
    multiset(k.runq)[pid] + One(k.phase == Held(pid)) + One(k.phase.Spawned? && k.phase.child == pid)
  }

  ghost function Tokens(cores: seq<Core>, pid: Pid): nat
  {
    if cores == [] then 0 else Tokens(cores[..|cores| - 1], pid) + CoreTokens(cores[|cores| - 1], pid)
  }

  /** How many cores a pid is on. */
  ghost function OnCores(cores: seq<Core>, pid: Pid): nat
  {
    if cores == [] then 0
    else OnCores(cores[..|cores| - 1], pid) + One(Owner(cores[|cores| - 1].phase) == Some(pid))
  }

  /** An entry of the wheel for `pid` due by tick `limit`. */
  ghost predicate OnWheel(wheel: seq<(nat, Pid)>, pid: Pid, limit: nat)
  {
    exists i :: 0 <= i < |wheel| && wheel[i].1 == pid && wheel[i].0 <= limit
  }

  /** The deadline, or the next tick if that has passed. */
  function By(deadline: nat, now: nat): nat { if deadline > now then deadline else now + 1 }

  /** A timer that comes up for `pid` in time: an entry due by its deadline or the next tick,
      or one that is being handled. */
  ghost predicate HasTimer(s: Sys, pid: Pid, deadline: nat)
  {
    || OnWheel(s.wheel, pid, By(deadline, s.now))
    || (exists c :: 0 <= c < |s.cores| && s.cores[c].phase.Due? && pid in s.cores[c].phase.due)
  }

  ghost predicate TimerFor(s: Sys, pid: Pid, deadline: Option<nat>)
  {
    deadline.Some? ==> HasTimer(s, pid, deadline.value)
  }

  ghost predicate TimersKept(s: Sys, s': Sys, pid: Pid)
  {
    forall d: nat :: HasTimer(s, pid, d) ==> HasTimer(s', pid, d)
  }

  /** The deadline a process takes into its wait. */
  function DeadlineOf(phase: Phase): Option<nat>
  {
    if (phase.Leaving? || phase.Left?) && phase.action.Block? then phase.action.deadline else None
  }

  /** State, tokens and cores of one process agree. */
  ghost predicate ProcOk(p: Proc, tokens: nat, on: nat, timer: bool)
  {
    match p.state
    case Runnable => tokens == 1 && on == 0 && p.saved && !p.killPending
    case Running => tokens == 0 && on == 1
    case Waiting => tokens == 0 && on == 0 && p.saved && !p.killPending && p.mailbox == [] && timer
    case Dead => (tokens == 0 && on == 1) || (tokens >= 1 && on == 0)
  }

  ghost predicate PidOk(s: Sys, pid: Pid)
  {
    if pid in s.table
    then
      && pid < s.nextPid
      && ProcOk(s.table[pid], Tokens(s.cores, pid), OnCores(s.cores, pid), TimerFor(s, pid, s.table[pid].deadline))
    else OnCores(s.cores, pid) == 0 && (pid >= s.nextPid ==> Tokens(s.cores, pid) == 0)
  }

  /** What a core's phase says about the process it is on. */
  ghost predicate PhaseOk(phase: Phase, p: Proc, timer: bool)
  {
    match phase
    case Switching(_) => p.state.Running? && p.saved
    case Leaving(_, action) =>
      (if action.NoAction? then p.state.Dead? else p.state.Running?) && timer
    case Left(_, action) =>
      (if action.NoAction? then p.state.Dead? else p.state.Running? && p.saved) && timer
    case _ => p.state.Running?
  }

  ghost predicate CoreOk(s: Sys, c: nat)
    requires c < |s.cores|
  {
    var phase, owner := s.cores[c].phase, Owner(s.cores[c].phase);
    && (phase.Due? ==> phase.at <= s.now)
    && (owner.Some? ==>
          owner.value in s.table && PhaseOk(phase, s.table[owner.value], TimerFor(s, owner.value, DeadlineOf(phase))))
  }

  ghost predicate Inv(s: Sys)
  {
    (forall pid :: PidOk(s, pid)) && (forall c :: 0 <= c < |s.cores| ==> CoreOk(s, c))
  }

  lemma {:induction false} SumUpdate(cores: seq<Core>, c: nat, k: Core, pid: Pid)
    requires c < |cores|
    ensures Tokens(cores[c := k], pid) + CoreTokens(cores[c], pid) == Tokens(cores, pid) + CoreTokens(k, pid)
    ensures OnCores(cores[c := k], pid) + One(Owner(cores[c].phase) == Some(pid))
      == OnCores(cores, pid) + One(Owner(k.phase) == Some(pid))
  {
    var n := |cores| - 1;
    if c == n {
      assert cores[c := k][..n] == cores[..n];
    } else {
      assert cores[c := k][..n] == cores[..n][c := k];
      SumUpdate(cores[..n], c, k, pid);
    }
  }

  lemma {:induction false} OnAtLeast(cores: seq<Core>, c: nat, pid: Pid)
    requires c < |cores|
    ensures OnCores(cores, pid) >= One(Owner(cores[c].phase) == Some(pid))
    ensures Tokens(cores, pid) >= CoreTokens(cores[c], pid)
  {
    if c < |cores| - 1 { OnAtLeast(cores[..|cores| - 1], c, pid); }
  }

  lemma {:induction false} OnTwo(cores: seq<Core>, c: nat, d: nat, pid: Pid)
    requires c < d < |cores| && Owner(cores[c].phase) == Some(pid) == Owner(cores[d].phase)
    ensures OnCores(cores, pid) >= 2
  {
    if d < |cores| - 1 {
      OnTwo(cores[..|cores| - 1], c, d, pid);
    } else {
      OnAtLeast(cores[..|cores| - 1], c, pid);
    }
  }

  /** A pid is on at most one core. */
  lemma OnOneCore(s: Sys, c: nat, d: nat)
    requires Inv(s) && c < |s.cores| && d < |s.cores| && c != d && Owner(s.cores[c].phase).Some?
    ensures Owner(s.cores[c].phase) != Owner(s.cores[d].phase)
  {
    var owner := Owner(s.cores[c].phase);
    assert PidOk(s, owner.value) && CoreOk(s, c);
    if owner == Owner(s.cores[d].phase) {
      if c < d { OnTwo(s.cores, c, d, owner.value); } else { OnTwo(s.cores, d, c, owner.value); }
    }
  }

  /** Nothing the invariant reads about `q` changed, except that a timer may have come. */
  ghost predicate SameAt(s: Sys, s': Sys, q: Pid)
  {
    && (q in s.table <==> q in s'.table)
    && (q in s.table ==> s'.table[q] == s.table[q])
    && Tokens(s'.cores, q) == Tokens(s.cores, q)
    && OnCores(s'.cores, q) == OnCores(s.cores, q)
    && TimersKept(s, s', q)
  }

  /** A step touching one pid `x` and the cores in `C` keeps the invariant if they do. */
  lemma Preserve(s: Sys, s': Sys, C: set<nat>, x: Pid)
    requires Inv(s) && |s'.cores| == |s.cores| && s'.nextPid == s.nextPid && s'.now == s.now
    requires forall d :: 0 <= d < |s.cores| && d !in C ==> s'.cores[d] == s.cores[d]
    requires forall q :: q != x ==> SameAt(s, s', q)
    requires PidOk(s', x)
    requires forall d :: 0 <= d < |s.cores| && (d in C || Owner(s.cores[d].phase) == Some(x)) ==> CoreOk(s', d)
    ensures Inv(s')
  {
    hide Tokens, OnCores, HasTimer;
    forall q ensures PidOk(s', q) {
      if q != x { assert SameAt(s, s', q) && PidOk(s, q); }
    }
    forall d | 0 <= d < |s'.cores| ensures CoreOk(s', d) {
      assert CoreOk(s, d);
      if d !in C && Owner(s.cores[d].phase) != Some(x) && Owner(s.cores[d].phase).Some? {
        assert SameAt(s, s', Owner(s.cores[d].phase).value);
      }
    }
  }

  /** Timers of `q` survive when the wheel only grows and no due list loses `q`. */
  lemma TimerKept(s: Sys, s': Sys, c: nat, q: Pid)
    requires c < |s.cores| == |s'.cores| && s.wheel <= s'.wheel && s'.now == s.now
    requires forall d :: 0 <= d < |s.cores| && d != c ==> s'.cores[d] == s.cores[d]
    requires s.cores[c].phase.Due? && q in s.cores[c].phase.due ==> s'.cores[c].phase.Due? && q in s'.cores[c].phase.due
    ensures TimersKept(s, s', q)
  {
    forall t: nat | HasTimer(s, q, t) ensures HasTimer(s', q, t) {
      if OnWheel(s.wheel, q, By(t, s.now)) {
        var i :| 0 <= i < |s.wheel| && s.wheel[i].1 == q && s.wheel[i].0 <= By(t, s.now);
        assert s'.wheel[i] == s.wheel[i];
      } else {
        var d :| 0 <= d < |s.cores| && s.cores[d].phase.Due? && q in s.cores[d].phase.due;
        assert s'.cores[d].phase.Due? && q in s'.cores[d].phase.due;
      }
    }
  }

  /** The same for a step of one core `c` that becomes `k`. */
  lemma PreserveOne(s: Sys, s': Sys, c: nat, k: Core, x: Pid)
    requires Inv(s) && c < |s.cores| && s'.cores == s.cores[c := k] && s'.nextPid == s.nextPid && s.wheel <= s'.wheel
    requires s'.now == s.now
    requires forall q :: q != x ==> (q in s.table <==> q in s'.table)
    requires forall q :: q != x && q in s.table ==> s'.table[q] == s.table[q]
    requires forall q :: q != x ==> CoreTokens(k, q) == CoreTokens(s.cores[c], q)
    requires forall q :: q != x ==> (Owner(k.phase) == Some(q) <==> Owner(s.cores[c].phase) == Some(q))
    requires forall q :: q != x && s.cores[c].phase.Due? && q in s.cores[c].phase.due ==>
      k.phase.Due? && q in k.phase.due
    requires PidOk(s', x) && CoreOk(s', c)
    requires forall d :: 0 <= d < |s.cores| && d != c && Owner(s.cores[d].phase) == Some(x) ==> CoreOk(s', d)
    ensures Inv(s')
  {
    hide Tokens, OnCores, HasTimer, CoreTokens, CoreOk, PidOk, Inv;
    forall q | q != x ensures SameAt(s, s', q) {
      SumUpdate(s.cores, c, k, q);
      TimerKept(s, s', c, q);
    }
    Preserve(s, s', {c}, x);
  }

  lemma TokensAfter(s: Sys, c: nat, k: Core, x: Pid)
    requires c < |s.cores|
    ensures Tokens(s.cores[c := k], x) == Tokens(s.cores, x) + CoreTokens(k, x) - CoreTokens(s.cores[c], x)
    ensures OnCores(s.cores[c := k], x)
      == OnCores(s.cores, x) + One(Owner(k.phase) == Some(x)) - One(Owner(s.cores[c].phase) == Some(x))
  {
    SumUpdate(s.cores, c, k, x);
  }

  lemma DeliverKeeps(s: Sys, c: nat, to: Pid, msg: Msg)
    requires Inv(s) && c < |s.cores|
    ensures Inv(DeliverFragment(s, c, to, msg))
  {
    hide Tokens, OnCores, HasTimer;
    var s' := DeliverFragment(s, c, to, msg);
    if to in s.table && !s.table[to].state.Dead? {
      assert PidOk(s, to);
      var k := if s.table[to].state.Waiting? then s.cores[c].(runq := s.cores[c].runq + [to]) else s.cores[c];
      assert s'.cores == s.cores[c := k];
      TokensAfter(s, c, k, to);
      TimerKept(s, s', c, to);
      forall d | 0 <= d < |s.cores| && Owner(s.cores[d].phase) == Some(to) ensures CoreOk(s', d) {
        assert CoreOk(s, d);
      }
      CoreStays(s, s', c, to);
      PreserveOne(s, s', c, k, to);
    }
  }

  /** A core that is not on `x` and keeps its phase keeps its promise. */
  lemma CoreStays(s: Sys, s': Sys, c: nat, x: Pid)
    requires Inv(s) && c < |s.cores| == |s'.cores| && s'.cores[c].phase == s.cores[c].phase
    requires forall q :: q != x && q in s.table ==> q in s'.table && s'.table[q] == s.table[q]
    requires forall d :: 0 <= d < |s.cores| && d != c ==> s'.cores[d] == s.cores[d]
    requires s.wheel <= s'.wheel && s'.now == s.now
    ensures Owner(s.cores[c].phase) != Some(x) ==> CoreOk(s', c)
  {
    hide Tokens, OnCores, HasTimer;
    assert CoreOk(s, c);
    if Owner(s.cores[c].phase).Some? { TimerKept(s, s', c, Owner(s.cores[c].phase).value); }
  }

  lemma MarkDeadKeeps(s: Sys, c: nat, pid: Pid, reason: string)
    requires Inv(s) && c < |s.cores|
    ensures Inv(MarkDead(s, c, pid, reason))
  {
    hide Tokens, OnCores, HasTimer;
    var s' := MarkDead(s, c, pid, reason);
    if pid in s.table && s' != s {
      assert PidOk(s, pid);
      var k := if s.table[pid].state.Running? then s.cores[c] else s.cores[c].(runq := s.cores[c].runq + [pid]);
      assert s'.cores == s.cores[c := k];
      TokensAfter(s, c, k, pid);
      TimerKept(s, s', c, pid);
      forall d | 0 <= d < |s.cores| && Owner(s.cores[d].phase) == Some(pid) ensures CoreOk(s', d) {
        assert CoreOk(s, d);
        OnAtLeast(s.cores, d, pid);
      }
      CoreStays(s, s', c, pid);
      PreserveOne(s, s', c, k, pid);
    }
  }

  lemma HistoryKeeps(s: Sys, s': Sys)
    requires Inv(s) && s'.table == s.table && s'.cores == s.cores && s'.wheel == s.wheel && s.now <= s'.now
    requires s'.nextPid == s.nextPid
    ensures Inv(s')
  {
    hide Tokens, OnCores, HasTimer, CoreOk, PidOk;
    forall q ensures SameAt(s, s', q) && PidOk(s', q) { HistorySame(s, s', q); }
    forall d | 0 <= d < |s.cores| ensures CoreOk(s', d) {
      CoreSame(s, s', d);
    }
  }

  lemma HistorySame(s: Sys, s': Sys, q: Pid)
    requires Inv(s) && s'.table == s.table && s'.cores == s.cores && s'.wheel == s.wheel && s.now <= s'.now
    requires s'.nextPid == s.nextPid
    ensures SameAt(s, s', q) && PidOk(s', q)
  {
    hide Tokens, OnCores;
    assert PidOk(s, q);
  }

  lemma CoreSame(s: Sys, s': Sys, c: nat)
    requires Inv(s) && s'.table == s.table && s'.cores == s.cores && s'.wheel == s.wheel && s.now <= s'.now
    requires c < |s.cores|
    ensures CoreOk(s', c)
  {
    hide Tokens, OnCores;
    assert CoreOk(s, c);
  }

  lemma {:induction false} DownAllKeeps(s: Sys, c: nat, dead: Pid, monitors: seq<(nat, Pid)>, reason: string)
    requires Inv(s) && c < |s.cores|
    ensures Inv(DownAll(s, c, dead, monitors, reason))
    decreases |monitors|
  {
    hide Inv, DeliverFragment;
    if monitors != [] {
      DownKeeps(s, c, monitors[0].1, monitors[0].0, dead, reason);
      DownAllKeeps(DeliverDown(s, c, monitors[0].1, monitors[0].0, dead, reason), c, dead, monitors[1..], reason);
    }
  }

  lemma DownKeeps(s: Sys, c: nat, watcher: Pid, ref: nat, dead: Pid, reason: string)
    requires Inv(s) && c < |s.cores|
    ensures Inv(DeliverDown(s, c, watcher, ref, dead, reason))
    ensures |DeliverDown(s, c, watcher, ref, dead, reason).cores| == |s.cores|
  {
    hide Inv;
    DeliverKeeps(s, c, watcher, Down(ref, dead, reason));
    HistoryKeeps(DeliverFragment(s, c, watcher, Down(ref, dead, reason)),
      DeliverDown(s, c, watcher, ref, dead, reason));
  }

  lemma {:induction false} MarkAllKeeps(s: Sys, c: nat, links: seq<Pid>, reason: string)
    requires Inv(s) && c < |s.cores|
    ensures Inv(MarkAll(s, c, links, reason))
    decreases |links|
  {
    hide Inv;
    if links != [] {
      MarkDeadKeeps(s, c, links[0], reason);
      MarkAllKeeps(MarkDead(s, c, links[0], reason), c, links[1..], reason);
    }
  }

  /** Reaping keeps the invariant once the core has let go of the dead process. */
  lemma ReapKeeps(s0: Sys, s: Sys, c: nat, pid: Pid)
    requires Inv(s0) && c < |s0.cores| && pid in s0.table && pid in s.table
    requires s == SetPhase(Put(s0, pid, s.table[pid]), c, Sched)
    requires (s0.cores[c].phase == Held(pid) && s0.table[pid].state.Dead?) || Owner(s0.cores[c].phase) == Some(pid)
    requires forall q :: q != pid ==> Owner(s0.cores[c].phase) != Some(q)
    requires !s0.cores[c].phase.Spawned? && !s0.cores[c].phase.Due?
    ensures Inv(Reap(s, c, pid))
  {
    hide Tokens, OnCores, HasTimer, DownAll, MarkAll;
    var p := s.table[pid];
    var s1 := s.(table := s.table - {pid}, reaped := s.reaped + [(pid, p.reason)]);
    var k := s0.cores[c].(phase := Sched);
    assert PidOk(s0, pid) && CoreOk(s0, c);
    OnAtLeast(s0.cores, c, pid);
    TokensAfter(s0, c, k, pid);
    forall d | 0 <= d < |s0.cores| && d != c ensures Owner(s0.cores[d].phase) != Some(pid) {
      if Owner(s0.cores[c].phase) == Some(pid) { OnOneCore(s0, c, d); } else { OnAtLeast(s0.cores, d, pid); }
    }
    PreserveOne(s0, s1, c, k, pid);
    DownAllKeeps(s1, c, pid, p.monitors, p.reason);
    var s2 := DownAll(s1, c, pid, p.monitors, p.reason);
    if p.reason != "normal" { MarkAllKeeps(s2, c, p.links, p.reason); }
  }

  predicate Plain(phase: Phase) { !phase.Held? && !phase.Spawned? && !phase.Due? }

  /** A step of a process on its own core: it stays on that core, Running or turned Dead. */
  lemma OwnStepKeeps(s: Sys, s': Sys, c: nat, pid: Pid, phase: Phase)
    requires Inv(s) && c < |s.cores| && Owner(s.cores[c].phase) == Some(pid) == Owner(phase)
    requires Plain(s.cores[c].phase) && Plain(phase)
    requires s'.cores == s.cores[c := s.cores[c].(phase := phase)] && s'.nextPid == s.nextPid
    requires s.wheel <= s'.wheel && s'.now == s.now
    requires pid in s'.table && s'.table == s.table[pid := s'.table[pid]]
    requires s'.table[pid].state.Running? || s'.table[pid].state.Dead?
    requires CoreOk(s', c)
    ensures Inv(s')
  {
    hide Tokens, OnCores, HasTimer;
    var k := s.cores[c].(phase := phase);
    assert PidOk(s, pid) && CoreOk(s, c);
    OnAtLeast(s.cores, c, pid);
    TokensAfter(s, c, k, pid);
    forall d | 0 <= d < |s.cores| && d != c ensures Owner(s.cores[d].phase) != Some(pid) { OnOneCore(s, c, d); }
    PreserveOne(s, s', c, k, pid);
  }

  lemma OwnSteps(s: Sys, step: Step)
    requires Inv(s) && Enabled(s, step)
    requires step.SwitchIn? || step.Yield? || step.Exit? || step.Save? || step.RecvTake? || step.RecvKilled?
      || step.RecvMiss?
    ensures s.cores[step.c].phase.pid in s.table && Inv(Apply(s, step))
  {
    hide Tokens, OnCores, HasTimer, Inv;
    var c := step.c;
    var pid := s.cores[c].phase.pid;
    InvCore(s, c);
    var s' := Apply(s, step);
    if step.Save? { TimerKept(s, s', c, pid); }
    OwnStepKeeps(s, s', c, pid, s'.cores[c].phase);
  }

  lemma InvCore(s: Sys, c: nat)
    requires Inv(s) && c < |s.cores|
    ensures CoreOk(s, c)
  {
  }

  lemma InvPid(s: Sys, pid: Pid)
    requires Inv(s)
    ensures PidOk(s, pid)
  {
  }

  lemma PushTimerKeeps(s: Sys, c: nat)
    requires Inv(s) && Enabled(s, PushTimer(c))
    ensures Inv(Apply(s, PushTimer(c)))
  {
    hide Tokens, OnCores, Inv;
    var Blocking(pid, deadline) := s.cores[c].phase;
    InvCore(s, c);
    var s' := Apply(s, PushTimer(c));
    if deadline.Some? { assert s'.wheel[|s.wheel|] == (deadline.value, pid); }
    assert s'.cores[c].phase == Leaving(pid, Block(deadline));
    OwnStepKeeps(s, s', c, pid, s'.cores[c].phase);
  }

  lemma PopKeeps(s: Sys, c: nat)
    requires Inv(s) && Enabled(s, PopOwn(c))
    ensures Inv(Apply(s, PopOwn(c)))
  {
    hide Tokens, OnCores, HasTimer;
    var s' := Apply(s, PopOwn(c));
    var q := s.cores[c].runq;
    var k, x := Core(q[1..], Held(q[0])), q[0];
    assert q == [q[0]] + q[1..];
    assert PidOk(s, x);
    TokensAfter(s, c, k, x);
    TimerKept(s, s', c, x);
    forall d | 0 <= d < |s.cores| && d != c && Owner(s.cores[d].phase) == Some(x) ensures CoreOk(s', d) {
      assert CoreOk(s, d);
    }
    PreserveOne(s, s', c, k, x);
  }

  lemma StealKeeps(s: Sys, c: nat, v: nat)
    requires Inv(s) && Enabled(s, Steal(c, v))
    ensures Inv(Apply(s, Steal(c, v)))
  {
    hide Tokens, OnCores, HasTimer;
    var s' := Apply(s, Steal(c, v));
    var q := s.cores[v].runq;
    var x := q[|q| - 1];
    var kv, kc := s.cores[v].(runq := q[..|q| - 1]), s.cores[c].(phase := Held(x));
    assert q == q[..|q| - 1] + [x];
    var mid := s.(cores := s.cores[v := kv]);
    assert s'.cores == mid.cores[c := kc];
    forall y ensures Tokens(s'.cores, y) == Tokens(s.cores, y) && OnCores(s'.cores, y) == OnCores(s.cores, y) {
      TokensAfter(s, v, kv, y);
      TokensAfter(mid, c, kc, y);
    }
    forall y ensures TimersKept(s, s', y) {
      TimerKept(s, mid, v, y);
      TimerKept(mid, s', c, y);
    }
    assert PidOk(s, x) && TimersKept(s, s', x);
    forall d | 0 <= d < |s.cores| ensures CoreOk(s', d) {
      assert CoreOk(s, d);
      if Owner(s.cores[d].phase).Some? { assert TimersKept(s, s', Owner(s.cores[d].phase).value); }
    }
    Preserve(s, s', {c, v}, x);
  }

  lemma TakeKeeps(s: Sys, c: nat)
    requires Inv(s) && Enabled(s, Take(c))
    ensures Inv(Apply(s, Take(c)))
  {
    hide Tokens, OnCores, HasTimer, Reap;
    var s' := Apply(s, Take(c));
    var pid := s.cores[c].phase.held;
    assert PidOk(s, pid);
    OnAtLeast(s.cores, c, pid);
    if pid in s.table && s.table[pid].state.Dead? {
      assert Put(s, pid, s.table[pid]) == s;
      ReapKeeps(s, SetPhase(s, c, Sched), c, pid);
    } else {
      var k := s'.cores[c];
      assert s'.cores == s.cores[c := k];
      TokensAfter(s, c, k, pid);
      forall d | 0 <= d < |s.cores| && d != c ensures Owner(s.cores[d].phase) != Some(pid) {
        OnAtLeast(s.cores, d, pid);
      }
      PreserveOne(s, s', c, k, pid);
    }
  }

  lemma PostKeeps(s: Sys, c: nat)
    requires Inv(s) && Enabled(s, Post(c))
    ensures s.cores[c].phase.pid in s.table && Inv(Apply(s, Post(c)))
  {
    hide Tokens, OnCores, HasTimer, Reap;
    var Left(pid, action) := s.cores[c].phase;
    assert CoreOk(s, c) && PidOk(s, pid);
    var s' := Apply(s, Post(c));
    var p0 := s.table[pid];
    var p := if !action.NoAction? && p0.killPending then p0.(state := Dead) else p0;
    if p.state.Dead? {
      ReapKeeps(s, Put(SetPhase(s, c, Sched), pid, p), c, pid);
    } else {
      var k := s'.cores[c];
      assert s'.cores == s.cores[c := k];
      TokensAfter(s, c, k, pid);
      TimerKept(s, s', c, pid);
      forall d | 0 <= d < |s.cores| && d != c ensures Owner(s.cores[d].phase) != Some(pid) { OnOneCore(s, c, d); }
      PreserveOne(s, s', c, k, pid);
    }
  }

  lemma SpawnKeeps(s: Sys, c: nat, link: bool)
    requires Inv(s) && Enabled(s, Spawn(c, link))
    ensures Inv(Apply(s, Spawn(c, link)))
  {
    hide Tokens, OnCores, HasTimer;
    var s', child := Apply(s, Spawn(c, link)), s.nextPid;
    var k := s'.cores[c];
    assert s'.cores == s.cores[c := k];
    forall q ensures PidOk(s', q) && TimersKept(s, s', q) {
      assert PidOk(s, q);
      TokensAfter(s, c, k, q);
      TimerKept(s, s', c, q);
    }
    assert PidOk(s, child);
    forall d | 0 <= d < |s'.cores| ensures CoreOk(s', d) {
      assert CoreOk(s, d);
      if Owner(s.cores[d].phase).Some? { assert TimersKept(s, s', Owner(s.cores[d].phase).value); }
    }
  }

  lemma EnqueueChildKeeps(s: Sys, c: nat)
    requires Inv(s) && Enabled(s, EnqueueChild(c))
    ensures Inv(Apply(s, EnqueueChild(c)))
  {
    hide Tokens, OnCores, HasTimer;
    var Spawned(parent, child) := s.cores[c].phase;
    var s' := Apply(s, EnqueueChild(c));
    var k := s'.cores[c];
    assert s'.cores == s.cores[c := k];
    assert PidOk(s, child);
    TokensAfter(s, c, k, child);
    TimerKept(s, s', c, child);
    forall d | 0 <= d < |s.cores| ensures CoreOk(s', d) {
      assert CoreOk(s, d);
      if Owner(s.cores[d].phase).Some? { TimerKept(s, s', c, Owner(s.cores[d].phase).value); }
    }
    PreserveOne(s, s', c, k, child);
  }

  lemma MonitorKeeps(s: Sys, c: nat, target: Pid)
    requires Inv(s) && Enabled(s, Monitor(c, target))
    ensures Inv(Apply(s, Monitor(c, target)))
  {
    hide Tokens, OnCores, HasTimer, DeliverDown;
    var s1, s' := s.(nextRef := s.nextRef + 1), Apply(s, Monitor(c, target));
    HistoryKeeps(s, s1);
    if target in s.table && !s.table[target].state.Dead? {
      assert PidOk(s, target);
      var k := s.cores[c];
      assert s'.cores == s.cores[c := k];
      TimerKept(s, s', c, target);
      forall d | 0 <= d < |s.cores| ensures CoreOk(s', d) {
        assert CoreOk(s, d);
        if Owner(s.cores[d].phase).Some? { TimerKept(s, s', c, Owner(s.cores[d].phase).value); }
      }
      PreserveOne(s, s', c, k, target);
    } else {
      DownKeeps(s1, c, s.cores[c].phase.pid, s.nextRef, target, "noproc");
    }
  }

  /** A wheel entry is either due or stays on the wheel. */
  lemma {:induction false} WheelSplit(wheel: seq<(nat, Pid)>, now: nat, q: Pid, limit: nat)
    requires OnWheel(wheel, q, limit)
    ensures q in Expired(wheel, now) || OnWheel(Unexpired(wheel, now), q, limit)
  {
    var i :| 0 <= i < |wheel| && wheel[i].1 == q && wheel[i].0 <= limit;
    var rest, all := Unexpired(wheel[1..], now), Unexpired(wheel, now);
    if i == 0 {
      if wheel[0].0 > now { assert all[0] == wheel[0]; }
    } else {
      assert wheel[1..][i - 1] == wheel[i];
      WheelSplit(wheel[1..], now, q, limit);
      if OnWheel(rest, q, limit) {
        var j :| 0 <= j < |rest| && rest[j].1 == q && rest[j].0 <= limit;
        assert all[if wheel[0].0 <= now then j else j + 1] == rest[j];
      }
    }
  }

  lemma TakeDueTimer(s: Sys, c: nat, q: Pid)
    requires Enabled(s, TakeDue(c))
    ensures TimersKept(s, Apply(s, TakeDue(c)), q)
  {
    hide Expired, Unexpired;
    var s' := Apply(s, TakeDue(c));
    forall t: nat | HasTimer(s, q, t) ensures HasTimer(s', q, t) {
      if OnWheel(s.wheel, q, By(t, s.now)) {
        WheelSplit(s.wheel, s.now, q, By(t, s.now));
        assert s'.cores[c].phase == Due(s.now, Expired(s.wheel, s.now)) && s'.wheel == Unexpired(s.wheel, s.now);
      } else {
        var d :| 0 <= d < |s.cores| && s.cores[d].phase.Due? && q in s.cores[d].phase.due;
        assert s'.cores[d] == s.cores[d];
      }
    }
  }

  lemma TakeDueKeeps(s: Sys, c: nat)
    requires Inv(s) && Enabled(s, TakeDue(c))
    ensures Inv(Apply(s, TakeDue(c)))
  {
    hide Tokens, OnCores, HasTimer, Expired, Unexpired;
    var s' := Apply(s, TakeDue(c));
    var k := s'.cores[c];
    assert s'.cores == s.cores[c := k];
    forall q ensures PidOk(s', q) && TimersKept(s, s', q) {
      assert PidOk(s, q);
      TokensAfter(s, c, k, q);
      TakeDueTimer(s, c, q);
    }
    forall d | 0 <= d < |s'.cores| ensures CoreOk(s', d) {
      assert CoreOk(s, d);
      if Owner(s.cores[d].phase).Some? { assert TimersKept(s, s', Owner(s.cores[d].phase).value); }
    }
  }

  lemma WakeKeeps(s: Sys, c: nat)
    requires Inv(s) && Enabled(s, WakeOne(c))
    ensures Inv(Apply(s, WakeOne(c)))
  {
    hide Inv, ApplyWake;
    if s.cores[c].phase.due == [] { WakeNoneKeeps(s, c); } else { WakeSomeKeeps(s, c); }
  }

  lemma WakeNoneKeeps(s: Sys, c: nat)
    requires Inv(s) && c < |s.cores| && s.cores[c].phase.Due? && s.cores[c].phase.due == []
    ensures Inv(ApplyWake(s, c))
  {
    hide Tokens, OnCores, HasTimer;
    var s' := ApplyWake(s, c);
    var k := s'.cores[c];
    assert s'.cores == s.cores[c := k];
    assert PidOk(s, 0);
    TokensAfter(s, c, k, 0);
    TimerKept(s, s', c, 0);
    forall d | 0 <= d < |s.cores| && d != c && Owner(s.cores[d].phase) == Some(0)
      ensures CoreOk(s', d) { assert CoreOk(s, d); }
    PreserveOne(s, s', c, k, 0);
  }

  lemma WakeSomeKeeps(s: Sys, c: nat)
    requires Inv(s) && c < |s.cores| && s.cores[c].phase.Due? && s.cores[c].phase.due != []
    ensures Inv(ApplyWake(s, c))
  {
    hide Tokens, OnCores, HasTimer;
    var s', due := ApplyWake(s, c), s.cores[c].phase.due;
    var k, x := s'.cores[c], due[0];
    assert s'.cores == s.cores[c := k];
    assert due == [x] + due[1..];
    assert PidOk(s, x);
    TokensAfter(s, c, k, x);
    assert CoreOk(s, c);
    if x in s.table && s.table[x].state.Running? { NewTimer(s', x); }
    forall d | 0 <= d < |s.cores| && d != c && Owner(s.cores[d].phase) == Some(x) ensures CoreOk(s', d) {
      assert CoreOk(s, d);
      OnAtLeast(s.cores, d, x);
    }
    PreserveOne(s, s', c, k, x);
  }

  lemma NewTimer(s: Sys, x: Pid)
    requires s.wheel != [] && s.wheel[|s.wheel| - 1].1 == x && s.wheel[|s.wheel| - 1].0 <= s.now + 1
    ensures forall d: nat :: HasTimer(s, x, d)
  {
  }

  lemma TickKeeps(s: Sys)
    requires Inv(s)
    ensures Inv(Apply(s, Tick))
  {
    hide Inv;
    HistoryKeeps(s, Apply(s, Tick));
  }

  /** Every step keeps the invariant, and every table lookup the kernel unwraps succeeds. */
  lemma StepKeeps(s: Sys, step: Step)
    requires Inv(s) && Enabled(s, step)
    ensures Unwraps(s, step).Some? ==> Unwraps(s, step).value in s.table
    ensures Inv(Apply(s, step))
  {
    hide Inv, ApplyTake, ApplyPost, ApplySpawn, ApplyWake, DeliverFragment, MarkDead;
    match step
    case PopOwn(c) => PopKeeps(s, c);
    case Steal(c, v) => StealKeeps(s, c, v);
    case Take(c) => TakeKeeps(s, c);
    case Post(c) => PostKeeps(s, c);
    case PushTimer(c) => PushTimerKeeps(s, c);
    case Send(c, to, n) => DeliverKeeps(s, c, to, Data(n));
    case Kill(c, pid, reason) => MarkDeadKeeps(s, c, pid, reason);
    case Spawn(c, link) => SpawnKeeps(s, c, link);
    case EnqueueChild(c) => EnqueueChildKeeps(s, c);
    case Monitor(c, target) => MonitorKeeps(s, c, target);
    case Tick => TickKeeps(s);
    case TakeDue(c) => TakeDueKeeps(s, c);
    case WakeOne(c) => WakeKeeps(s, c);
    case SwitchIn(_) => OwnSteps(s, step);
    case Yield(_) => OwnSteps(s, step);
    case Exit(_, _) => OwnSteps(s, step);
    case Save(_) => OwnSteps(s, step);
    case RecvTake(_, _) => OwnSteps(s, step);
    case RecvKilled(_) => OwnSteps(s, step);
    case RecvMiss(_, _) => OwnSteps(s, step);
  }

  ghost predicate Init(s: Sys)
  {
    && s.table == map[] && s.wheel == []
    && (forall c :: 0 <= c < |s.cores| ==> s.cores[c] == Core([], Sched))
    && s.nextRef == 1 && s.nextPid == 1 && s.downs == [] && s.reaped == []
  }

  predicate Unpanicked(s: Sys, step: Step)
    requires Enabled(s, step)
  {
    Unwraps(s, step).Some? ==> Unwraps(s, step).value in s.table
  }

  ghost predicate Link(s: Sys, step: Step, s': Sys)
  {
    Enabled(s, step) && (Unpanicked(s, step) ==> s' == Apply(s, step))
  }

  /** Any interleaving of steps of any number of cores, from the empty system. */
  ghost predicate IsRun(states: seq<Sys>, steps: seq<Step>)
  {
    && |states| == |steps| + 1
    && Init(states[0])
    && forall i :: 0 <= i < |steps| ==> Link(states[i], steps[i], states[i + 1])
  }

  lemma {:induction false} NoneAtStart(cores: seq<Core>, pid: Pid)
    requires forall c :: 0 <= c < |cores| ==> cores[c] == Core([], Sched)
    ensures Tokens(cores, pid) == 0 == OnCores(cores, pid)
  {
    if cores != [] { NoneAtStart(cores[..|cores| - 1], pid); }
  }

  lemma InitInv(s: Sys)
    requires Init(s)
    ensures Inv(s)
  {
    hide Tokens, OnCores;
    forall pid ensures PidOk(s, pid) { NoneAtStart(s.cores, pid); }
  }

  /** The invariant holds all along every run, and no run panics on a missing process. */
  lemma {:induction false} RunInv(states: seq<Sys>, steps: seq<Step>, i: nat)
    requires IsRun(states, steps) && i < |states|
    ensures Inv(states[i])
    ensures i < |steps| ==> Enabled(states[i], steps[i]) && Unpanicked(states[i], steps[i])
  {
    hide Inv, Init;
    if i == 0 {
      InitInv(states[0]);
    } else {
      RunInv(states, steps, i - 1);
      assert Link(states[i - 1], steps[i - 1], states[i]);
      StepKeeps(states[i - 1], steps[i - 1]);
    }
    if i < |steps| {
      assert Link(states[i], steps[i], states[i + 1]);
      StepKeeps(states[i], steps[i]);
    }
  }

  /** The pid whose code or stack a core is running on right now. */
  predicate RunsOn(phase: Phase, pid: Pid) { Owner(phase) == Some(pid) && !phase.Switching? && !phase.Left? }

  /** A step that resumes a process finds it in the table with its context saved. */
  ghost predicate ResumesSaved(s: Sys, step: Step)
  {
    step.SwitchIn? && step.c < |s.cores| && s.cores[step.c].phase.Switching? ==>
      s.cores[step.c].phase.pid in s.table && s.table[s.cores[step.c].phase.pid].saved
  }

  /** Scheduler exclusion: along every run a pid executes on at most one core, is resumed
      only with its context saved, and nobody is on the stack of a process being reaped. */
  lemma Exclusion(states: seq<Sys>, steps: seq<Step>, i: nat, pid: Pid)
    requires IsRun(states, steps) && i < |steps|
    ensures forall c, d :: 0 <= c < d < |states[i].cores| ==>
              !(RunsOn(states[i].cores[c].phase, pid) && RunsOn(states[i].cores[d].phase, pid))
    ensures ResumesSaved(states[i], steps[i])
    ensures pid in states[i].table && pid !in states[i + 1].table ==>
              forall c :: 0 <= c < |states[i].cores| ==> !RunsOn(states[i].cores[c].phase, pid)
  {
    hide Inv, Init;
    var s, step := states[i], steps[i];
    RunInv(states, steps, i);
    assert Link(s, step, states[i + 1]);
    forall c, d | 0 <= c < d < |s.cores| ensures !(RunsOn(s.cores[c].phase, pid) && RunsOn(s.cores[d].phase, pid)) {
      if Owner(s.cores[c].phase).Some? { OnOneCore(s, c, d); }
    }
    if step.SwitchIn? { InvCore(s, step.c); }
    if pid in s.table && pid !in states[i + 1].table { ReapedOffStack(s, step, pid); }
  }

  /** Only `Take` and `Post` remove a process, and then no core is on its stack. */
  lemma ReapedOffStack(s: Sys, step: Step, pid: Pid)
    requires Inv(s) && Enabled(s, step) && Unpanicked(s, step) && pid in s.table && pid !in Apply(s, step).table
    ensures (step.Take? && s.cores[step.c].phase == Held(pid)) || (step.Post? && s.cores[step.c].phase.pid == pid)
    ensures forall c :: 0 <= c < |s.cores| ==> !RunsOn(s.cores[c].phase, pid)
  {
    hide Inv, Tokens, OnCores;
    WhoIsReaped(s, step, pid);
    InvPid(s, pid);
    OnAtLeast(s.cores, step.c, pid);
    forall c | 0 <= c < |s.cores| ensures !RunsOn(s.cores[c].phase, pid) {
      OnAtLeast(s.cores, c, pid);
      if c != step.c && Owner(s.cores[c].phase).Some? { OnOneCore(s, c, step.c); }
    }
  }

  lemma {:induction false} SignalsKeepMembers(s: Sys, c: nat, dead: Pid, monitors: seq<(nat, Pid)>, reason: string)
    requires c < |s.cores|
    ensures DownAll(s, c, dead, monitors, reason).table.Keys == s.table.Keys
    decreases |monitors|
  {
    if monitors != [] {
      SignalsKeepMembers(DeliverDown(s, c, monitors[0].1, monitors[0].0, dead, reason), c, dead, monitors[1..], reason);
    }
  }

  lemma {:induction false} MarksKeepMembers(s: Sys, c: nat, links: seq<Pid>, reason: string)
    requires c < |s.cores|
    ensures MarkAll(s, c, links, reason).table.Keys == s.table.Keys
    decreases |links|
  {
    if links != [] { MarksKeepMembers(MarkDead(s, c, links[0], reason), c, links[1..], reason); }
  }

  lemma ReapMembers(s: Sys, c: nat, pid: Pid)
    requires c < |s.cores| && pid in s.table
    ensures Reap(s, c, pid).table.Keys == s.table.Keys - {pid}
  {
    hide DownAll, MarkAll;
    var p := s.table[pid];
    var s1 := s.(table := s.table - {pid}, reaped := s.reaped + [(pid, p.reason)]);
    SignalsKeepMembers(s1, c, pid, p.monitors, p.reason);
    MarksKeepMembers(DownAll(s1, c, pid, p.monitors, p.reason), c, p.links, p.reason);
  }

  lemma WhoIsReaped(s: Sys, step: Step, pid: Pid)
    requires Inv(s) && Enabled(s, step) && Unpanicked(s, step) && pid in s.table && pid !in Apply(s, step).table
    ensures (step.Take? && s.cores[step.c].phase == Held(pid) && s.table[pid].state.Dead?)
            || (step.Post? && s.cores[step.c].phase.pid == pid)
  {
    hide Inv, Reap;
    if step.Take? {
      var x := s.cores[step.c].phase.held;
      if x in s.table && s.table[x].state.Dead? { ReapMembers(SetPhase(s, step.c, Sched), step.c, x); }
    } else if step.Post? {
      var Left(x, action) := s.cores[step.c].phase;
      var p0 := s.table[x];
      var p := if !action.NoAction? && p0.killPending then p0.(state := Dead) else p0;
      if p.state.Dead? { ReapMembers(Put(SetPhase(s, step.c, Sched), x, p), step.c, x); }
    }
  }

  /** No lost wakeups or timeouts, in every reachable state. */
  lemma NoLostWakeups(states: seq<Sys>, steps: seq<Step>, i: nat, pid: Pid)
    requires IsRun(states, steps) && i < |states| && pid in states[i].table
    ensures var p := states[i].table[pid];
      && (p.state.Waiting? ==> p.mailbox == [] && Tokens(states[i].cores, pid) == 0)
      && (p.state.Runnable? ==> Tokens(states[i].cores, pid) == 1)
      && (p.state.Waiting? && p.deadline.Some? ==> HasTimer(states[i], pid, p.deadline.value))
      && (p.killPending ==> p.state.Running? || p.state.Dead?)
      && (p.state.Dead? && OnCores(states[i].cores, pid) == 0 ==> Tokens(states[i].cores, pid) >= 1)
  {
    hide Inv, Init, Tokens, OnCores, HasTimer;
    RunInv(states, steps, i);
    InvPid(states[i], pid);
  }
}
